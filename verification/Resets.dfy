/** Password reset tokens over whole-request runs. */
module Resets {
  import opened Model
  import opened Requests
  import opened Directory

  predicate Unused(s: State, h: TokenHash, u: UserId) {
    h in s.oneTime.resets && s.oneTime.resets[h].userId == u && s.oneTime.resets[h].usedAt.None?
  }

  ghost predicate OneUnusedReset(s: State) {
    forall u, h, k | Unused(s, h, u) && Unused(s, k, u) :: h == k
  }

  /** The call changes the password of `u` through a reset token. */
  predicate Resets(cfg: Config, s: State, c: Call, u: UserId) {
    c.ResetPassword? && Apply(cfg, s, c).outcome == Done && Target(s, c) == Some(u)
  }

  predicate Forgets(s: State, c: Call, u: UserId) {
    c.ForgotPassword? && Target(s, c) == Some(u)
  }

  lemma TokensUntouched(cfg: Config, s: State, c: Call)
    requires !c.ForgotPassword? && !c.ResetPassword?
    ensures Apply(cfg, s, c).state.oneTime.resets == s.oneTime.resets
  {
  }

  lemma {:induction false} StepKeepsOneUnused(cfg: Config, s: State, e: Event)
    requires OneUnusedReset(s)
    ensures OneUnusedReset(Step(cfg, s, e))
  {
    var s1, s' := Arrive(s, e), Step(cfg, s, e);
    if !e.call.ForgotPassword? && !e.call.ResetPassword? { TokensUntouched(cfg, s1, e.call); }
    forall u: UserId, h, k | Unused(s', h, u) && Unused(s', k, u) ensures h == k {
      if e.call.ForgotPassword? && Target(s1, e.call) == Some(u) {
      } else {
        assert Unused(s, h, u) && Unused(s, k, u);
      }
    }
  }

  /** `passwordChangedAt` records resets alone: changing one's password leaves it as it was. */
  lemma StampRecordsResets(cfg: Config, s: State, c: Call, u: UserId)
    requires u in s.accounts.users
    ensures u in Apply(cfg, s, c).state.accounts.users
    ensures Apply(cfg, s, c).state.accounts.users[u].passwordChangedAt
            == if Resets(cfg, s, c, u) then Some(s.clock) else s.accounts.users[u].passwordChangedAt
  {
  }

  // ---------------------------------------------------------------- each token works once

  predicate Spent(s: State, raw: Draw) {
    Sha256Hex(raw) in s.oneTime.resets && s.oneTime.resets[Sha256Hex(raw)].usedAt.Some?
  }

  predicate Uses(cfg: Config, s: State, e: Event, raw: Draw) {
    e.call.ResetPassword? && e.call.raw == raw && Serve(cfg, s, e).outcome == Done
  }

  function CountUses(cfg: Config, s: State, es: seq<Event>, raw: Draw): nat
    decreases |es|
  {
    if es == [] then 0
    else (if Uses(cfg, s, es[0], raw) then 1 else 0) + CountUses(cfg, Step(cfg, s, es[0]), es[1..], raw)
  }

  lemma {:induction false} SpentForever(cfg: Config, s: State, e: Event, raw: Draw)
    ensures Spent(s, raw) ==> Spent(Step(cfg, s, e), raw) && !Uses(cfg, s, e, raw)
    ensures Uses(cfg, s, e, raw) ==> Spent(Step(cfg, s, e), raw)
  {
    if !e.call.ForgotPassword? && !e.call.ResetPassword? { TokensUntouched(cfg, Arrive(s, e), e.call); }
  }

  /** Over a whole run one reset token changes a password at most once. */
  lemma {:induction false} AtMostOneUse(cfg: Config, s: State, es: seq<Event>, raw: Draw)
    ensures CountUses(cfg, s, es, raw) <= if Spent(s, raw) then 0 else 1
    decreases |es|
  {
    if es == [] {
    } else {
      SpentForever(cfg, s, es[0], raw);
      AtMostOneUse(cfg, Step(cfg, s, es[0]), es[1..], raw);
    }
  }

  // ---------------------------------------------------------------- resets never outnumber requests

  function CountResets(cfg: Config, s: State, es: seq<Event>, u: UserId): nat
    decreases |es|
  {
    if es == [] then 0
    else (if Resets(cfg, Arrive(s, es[0]), es[0].call, u) then 1 else 0)
         + CountResets(cfg, Step(cfg, s, es[0]), es[1..], u)
  }

  function CountForgets(cfg: Config, s: State, es: seq<Event>, u: UserId): nat
    decreases |es|
  {
    if es == [] then 0
    else (if Forgets(Arrive(s, es[0]), es[0].call, u) then 1 else 0)
         + CountForgets(cfg, Step(cfg, s, es[0]), es[1..], u)
  }

  ghost function Open(s: State, u: UserId): nat {
    if exists h :: Unused(s, h, u) then 1 else 0
  }

  lemma {:induction false} ResetUsesUpTheOpenToken(cfg: Config, s: State, e: Event, u: UserId)
    requires OneUnusedReset(s)
    ensures (if Resets(cfg, Arrive(s, e), e.call, u) then 1 else 0) + Open(Step(cfg, s, e), u)
         <= Open(s, u) + (if Forgets(Arrive(s, e), e.call, u) then 1 else 0)
  {
    var s1, s' := Arrive(s, e), Step(cfg, s, e);
    if !e.call.ForgotPassword? && !e.call.ResetPassword? { TokensUntouched(cfg, s1, e.call); }
    if Resets(cfg, s1, e.call, u) {
      assert Unused(s, Sha256Hex(e.call.raw), u);
      forall h ensures !Unused(s', h, u) {
        assert Unused(s', h, u) ==> Unused(s, h, u);
      }
    } else if !Forgets(s1, e.call, u) {
      forall h ensures Unused(s', h, u) ==> Unused(s, h, u) {}
    }
  }

  /** Successful resets of an account never outnumber its "forgot password" requests, even midway. */
  lemma {:induction false} ResetsNeedRequests(cfg: Config, s: State, es: seq<Event>, u: UserId)
    requires OneUnusedReset(s)
    ensures CountResets(cfg, s, es, u) + Open(Run(cfg, s, es), u) <= Open(s, u) + CountForgets(cfg, s, es, u)
    decreases |es|
  {
    if es == [] {
    } else {
      ResetUsesUpTheOpenToken(cfg, s, es[0], u);
      StepKeepsOneUnused(cfg, s, es[0]);
      ResetsNeedRequests(cfg, Step(cfg, s, es[0]), es[1..], u);
    }
  }

  // ---------------------------------------------------------------- every token was asked for, and is young

  /** Event `j` asked for a password reset of `u`, and was given `raw` until `expiresAt`. */
  ghost predicate Issued(cfg: Config, es: seq<Event>, j: nat, raw: Draw, u: UserId, expiresAt: Time)
    requires j < |es|
  {
    && es[j].call.ForgotPassword? && es[j].call.raw == raw && expiresAt == es[j].at + ONE_TIME_TTL
    && Forgets(Arrive(Run(cfg, EMPTY, es[..j]), es[j]), es[j].call, u)
  }

  ghost predicate WasIssued(cfg: Config, es: seq<Event>, n: nat, h: TokenHash, row: ResetToken)
    requires n <= |es|
  {
    exists j: nat | j < n :: Issued(cfg, es, j, h.preimage, row.userId, row.expiresAt)
  }

  lemma {:induction false} RowsComeFromRequests(cfg: Config, s: State, e: Event, h: TokenHash)
    requires h in Step(cfg, s, e).oneTime.resets
    ensures var row := Step(cfg, s, e).oneTime.resets[h];
            || (h in s.oneTime.resets && s.oneTime.resets[h].userId == row.userId
                && s.oneTime.resets[h].expiresAt == row.expiresAt)
            || (e.call.ForgotPassword? && h == Sha256Hex(e.call.raw) && row.expiresAt == e.at + ONE_TIME_TTL
                && Forgets(Arrive(s, e), e.call, row.userId))
  {
    if !e.call.ForgotPassword? && !e.call.ResetPassword? { TokensUntouched(cfg, Arrive(s, e), e.call); }
  }

  lemma {:induction false} EveryRowWasIssued(cfg: Config, es: seq<Event>, n: nat, h: TokenHash)
    requires n <= |es| && h in Run(cfg, EMPTY, es[..n]).oneTime.resets
    ensures WasIssued(cfg, es, n, h, Run(cfg, EMPTY, es[..n]).oneTime.resets[h])
    decreases n
  {
    hide Apply;
    if n == 0 {
    } else {
      var before := Run(cfg, EMPTY, es[..n - 1]);
      assert es[..n] == es[..n - 1] + [es[n - 1]];
      RunSnoc(cfg, EMPTY, es[..n - 1], es[n - 1]);
      RowsComeFromRequests(cfg, before, es[n - 1], h);
      var row := Run(cfg, EMPTY, es[..n]).oneTime.resets[h];
      if h in before.oneTime.resets && before.oneTime.resets[h].userId == row.userId
         && before.oneTime.resets[h].expiresAt == row.expiresAt
      {
        EveryRowWasIssued(cfg, es, n - 1, h);
      } else {
        assert Issued(cfg, es, n - 1, h.preimage, row.userId, row.expiresAt);
      }
    }
  }

  /**
   Whenever a token changes the password of `u`, that very token was issued to a "forgot password" request for
   `u` earlier in the run, at most fifteen minutes before.
   */
  lemma ResetsAnswerARecentRequest(cfg: Config, es: seq<Event>, n: nat, u: UserId)
    requires n < |es| && Resets(cfg, Arrive(Run(cfg, EMPTY, es[..n]), es[n]), es[n].call, u)
    ensures exists j: nat, expiresAt | j < n ::
              Issued(cfg, es, j, es[n].call.raw, u, expiresAt) && es[n].at <= es[j].at + ONE_TIME_TTL
  {
    EveryRowWasIssued(cfg, es, n, Sha256Hex(es[n].call.raw));
  }
}
