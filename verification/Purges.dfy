/** The six calls that end a user's sessions all leave the same tables behind. */
module Purges {
  import opened Model
  import opened GrantTables
  import opened Requests
  import Auth = AuthService

  /** The user whose sessions this call ends by design, when it gets that far. */
  function PurgeTarget(cfg: Config, s: State, c: Call): Option<UserId> {
    if Apply(cfg, s, c).outcome != Done then None else
    match c
    case Logout(token) =>
      if token.Some? && VerifyRefresh(s.grants, token.value, s.clock) then Some(token.value.id) else None
    case ResetPassword(raw, _) =>
      var row := Auth.FindReset(s, raw);
      if row.Some? then Some(row.value.userId) else None
    case ChangePassword(u, _, _) => Some(u)
    case RevokeAllSessions(u) => Some(u)
    case DeleteAccount(u) => Some(u)
    case DeleteUser(u) => Some(u)
    case _ => None
  }

  /** The sessions a call that neither logs in nor rotates takes away. */
  function Doomed(cfg: Config, s: State, c: Call): set<SessionId> {
    match PurgeTarget(cfg, s, c)
    case Some(u) => SessionIdsOf(s.grants, u)
    case None => if c.RevokeSession? && Apply(cfg, s, c).outcome == Done then {c.sid} else {}
  }

  /**
   After a successful logout, password reset, password change, revocation of all sessions, self-deletion
   or admin deletion, the session and token tables are those of one and the same purge: the user has no
   row left and every other user has exactly the rows they had.
   */
  lemma AllPurgePathsAgree(cfg: Config, s: State, c: Call, u: UserId, v: UserId)
    requires Matched(s.grants) && PurgeTarget(cfg, s, c) == Some(u)
    ensures var g := Apply(cfg, s, c).state.grants;
            && g == Purge(s.grants, u) == DropSessions(s.grants, SessionIdsOf(s.grants, u))
            && SessionsOf(g, v) == (if v == u then map[] else SessionsOf(s.grants, v))
            && TokensOf(g, v) == (if v == u then map[] else TokensOf(s.grants, v))
  {
    PurgeIsTheCascade(s.grants, u);
    if c.Logout? { LogoutIsTheCascade(s.grants, c.token.value); }
    PurgeIsExact(s.grants, u, v);
  }

  lemma NoPurgeNoChange(cfg: Config, s: State, c: Call)
    requires !c.Login? && !c.Refresh? && !c.RevokeSession? && PurgeTarget(cfg, s, c).None?
    ensures Apply(cfg, s, c).state.grants == s.grants
  {
  }

  lemma RevokingDropsOne(cfg: Config, s: State, c: Call)
    requires c.RevokeSession?
    ensures Apply(cfg, s, c).state.grants
            == if Apply(cfg, s, c).outcome == Done then DropSessions(s.grants, {c.sid}) else s.grants
  {
  }

  /** Apart from login and rotation, calls only delete sessions, and tokens go with their sessions. */
  lemma OtherCallsOnlyDrop(cfg: Config, s: State, c: Call)
    requires Matched(s.grants) && !c.Login? && !c.Refresh?
    ensures Apply(cfg, s, c).state.grants == DropSessions(s.grants, Doomed(cfg, s, c))
  {
    hide Apply;
    if PurgeTarget(cfg, s, c).Some? {
      AllPurgePathsAgree(cfg, s, c, PurgeTarget(cfg, s, c).value, 0);
    } else {
      assert DropSessions(s.grants, {}) == s.grants by { assert DropSessions(s.grants, {}).tokens == s.grants.tokens; }
      if c.RevokeSession? { RevokingDropsOne(cfg, s, c); } else { NoPurgeNoChange(cfg, s, c); }
    }
  }
}
