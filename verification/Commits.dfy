/** What a commit writes that comes any number of moves after its read. */
module Commits {
  import opened Model
  import opened GrantTables
  import opened Requests
  import opened Directory
  import opened Interleaving
  import opened Rotation
  import Auth = AuthService

  lemma {:induction false} UsersStay(cfg: Config, c: Conc, ms: seq<Move>, u: UserId)
    requires u in c.s.accounts.users
    ensures u in Exec(cfg, c, ms).s.accounts.users
    decreases |ms|
  {
    hide Apply;
    if ms == [] {
    } else {
      if ms[0].action.Whole? { UsersOnlyJoin(cfg, At(c.s, ms[0]), ms[0].action.call); }
      UsersStay(cfg, Next(cfg, c, ms[0]), ms[1..], u);
    }
  }

  /** The move reads an account that the password fits. */
  predicate Accepts(c: Conc, read: Move, u: UserId) {
    read.action.LoginRead?
    && Auth.CheckLogin(At(c.s, read), read.action.email, read.action.password) == Auth.Accepted(u)
  }

  lemma AcceptingLeavesPending(cfg: Config, c: Conc, read: Move, u: UserId)
    requires Accepts(c, read, u)
    ensures var c1, j := Next(cfg, c, read), read.action.jti;
            && u in c1.s.accounts.users && j in c1.s.grants.minted && j in c1.pending
            && c1.pending[j] == PendingLogin(u, read.at + cfg.refreshExpiresIn, read.action.metadata, read.at)
  {
    hide Apply;
  }

  lemma LoginCommitWrites(cfg: Config, c: Conc, commit: Move, u: UserId)
    requires Coherent(cfg, c) && Enabled(c, commit) && commit.action.LoginCommit?
    requires commit.action.jti in c.pending && c.pending[commit.action.jti].PendingLogin?
    requires c.pending[commit.action.jti].userId == u && u in c.s.accounts.users
    ensures var s', p, a := Next(cfg, c, commit).s, c.pending[commit.action.jti], commit.action;
            && s'.grants.sessions == c.s.grants.sessions[
                 a.sid := Session(u, p.metadata, true, commit.at, p.expiresAt, commit.at)]
            && s'.grants.tokens == c.s.grants.tokens[
                 Sha256Hex(a.jti) := RefreshToken(u, a.sid, p.expiresAt, commit.at)]
            && s'.accounts == c.s.accounts.(users := c.s.accounts.users[
                 u := c.s.accounts.users[u].(failedLoginAttempts := 0, lockUntil := None,
                                             lastLoginAt := Some(p.checkedAt), updatedAt := commit.at)])
  {
    hide Apply;
    PendingFacts(cfg, c);
  }

  /**
   However many moves lie between a login's read and its commit, the commit goes through, and writes what was read:
   the session and its token run out a stored lifetime after the read, and `lastLoginAt` is the moment of the read.
   What became of the account in between makes no difference.
   */
  lemma LoginsCommitAsRead(cfg: Config, c: Conc, read: Move, ms: seq<Move>, commit: Move, u: UserId)
    requires Coherent(cfg, c) && Enabled(c, read) && Accepts(c, read, u)
    requires EnabledRun(cfg, Next(cfg, c, read), ms) && Enabled(Exec(cfg, Next(cfg, c, read), ms), commit)
    requires commit.action.LoginCommit? && commit.action.jti == read.action.jti
    requires commit.action.jti in Exec(cfg, Next(cfg, c, read), ms).pending
    ensures var before := Exec(cfg, Next(cfg, c, read), ms).s;
            var after, a := Next(cfg, Exec(cfg, Next(cfg, c, read), ms), commit).s, commit.action;
            var end := read.at + cfg.refreshExpiresIn;
            && u in before.accounts.users
            && after.grants.sessions == before.grants.sessions[
                 a.sid := Session(u, read.action.metadata, true, commit.at, end, commit.at)]
            && after.grants.tokens == before.grants.tokens[
                 Sha256Hex(a.jti) := RefreshToken(u, a.sid, end, commit.at)]
            && after.accounts == before.accounts.(users := before.accounts.users[
                 u := before.accounts.users[u].(failedLoginAttempts := 0, lockUntil := None,
                                                lastLoginAt := Some(read.at), updatedAt := commit.at)])
  {
    hide Next, Exec, Coherent, Auth.CheckLogin;
    var c1 := Next(cfg, c, read);
    AcceptingLeavesPending(cfg, c, read, u);
    StepKeepsCoherent(cfg, c, read);
    RunKeepsCoherent(cfg, c1, ms);
    PendingKeepsItsContent(cfg, c1, ms, read.action.jti);
    UsersStay(cfg, c1, ms, u);
    LoginCommitWrites(cfg, Exec(cfg, c1, ms), commit, u);
  }

  lemma RotatingLeavesPending(cfg: Config, c: Conc, read: Move, sid: SessionId)
    requires read.action.RefreshRead? && Auth.CheckRefresh(At(c.s, read), read.action.jwt) == Auth.Rotatable(sid)
    ensures var c1, j, jwt := Next(cfg, c, read), read.action.jti, read.action.jwt;
            && j in c1.s.grants.minted && j in c1.pending
            && c1.pending[j] == PendingRotation(jwt.id, read.at + cfg.refreshExpiresIn, jwt.jti, sid)
  {
    hide Apply;
  }

  lemma RotationCommitWrites(cfg: Config, c: Conc, commit: Move)
    requires Coherent(cfg, c) && Enabled(c, commit) && commit.action.RefreshCommit?
    requires commit.action.jti in c.pending && c.pending[commit.action.jti].PendingRotation?
    requires Sha256Hex(c.pending[commit.action.jti].presented) in c.s.grants.tokens
    ensures var s', p, j := Next(cfg, c, commit).s, c.pending[commit.action.jti], commit.action.jti;
            && p.sessionId in c.s.grants.sessions
            && s'.grants.sessions == c.s.grants.sessions[
                 p.sessionId := c.s.grants.sessions[p.sessionId].(lastUsedAt := commit.at)]
            && s'.grants.tokens == (c.s.grants.tokens - {Sha256Hex(p.presented)})[
                 Sha256Hex(j) := RefreshToken(p.userId, p.sessionId, p.expiresAt, commit.at)]
            && s'.accounts == c.s.accounts
  {
    hide Apply;
    assert PendingOk(cfg, c, commit.action.jti);
  }

  /**
   And as long as the presented row is still there a late rotation commit replaces that row alone, by one that runs
   out a stored lifetime after the read, and touches the session.
   */
  lemma RotationsCommitAsRead(cfg: Config, c: Conc, read: Move, ms: seq<Move>, commit: Move, sid: SessionId)
    requires Coherent(cfg, c) && Enabled(c, read)
    requires read.action.RefreshRead? && Auth.CheckRefresh(At(c.s, read), read.action.jwt) == Auth.Rotatable(sid)
    requires EnabledRun(cfg, Next(cfg, c, read), ms) && Enabled(Exec(cfg, Next(cfg, c, read), ms), commit)
    requires commit.action.RefreshCommit? && commit.action.jti == read.action.jti
    requires commit.action.jti in Exec(cfg, Next(cfg, c, read), ms).pending
    requires Sha256Hex(read.action.jwt.jti) in Exec(cfg, Next(cfg, c, read), ms).s.grants.tokens
    ensures var before, jwt := Exec(cfg, Next(cfg, c, read), ms).s, read.action.jwt;
            var after := Next(cfg, Exec(cfg, Next(cfg, c, read), ms), commit).s;
            && sid in before.grants.sessions
            && after.grants.sessions == before.grants.sessions[
                 sid := before.grants.sessions[sid].(lastUsedAt := commit.at)]
            && after.grants.tokens == (before.grants.tokens - {Sha256Hex(jwt.jti)})[
                 Sha256Hex(commit.action.jti) :=
                   RefreshToken(jwt.id, sid, read.at + cfg.refreshExpiresIn, commit.at)]
            && after.accounts == before.accounts
  {
    hide Next, Exec, Coherent;
    var c1 := Next(cfg, c, read);
    RotatingLeavesPending(cfg, c, read, sid);
    StepKeepsCoherent(cfg, c, read);
    RunKeepsCoherent(cfg, c1, ms);
    PendingKeepsItsContent(cfg, c1, ms, read.action.jti);
    RotationCommitWrites(cfg, Exec(cfg, c1, ms), commit);
  }
}
