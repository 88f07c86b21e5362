/**
 Login and rotation as they really interleave: each is a read, then later one atomic commit, with any
 number of calls pending in between. Every other service call may happen at any point. A pending call
 is known by the `jti` it minted.
 */
module Interleaving {
  import opened Model
  import opened GrantTables
  import opened Requests
  import opened Purges
  import Auth = AuthService

  datatype Pending =
    | PendingLogin(userId: UserId, expiresAt: Time, metadata: SessionMetadata, checkedAt: Time)
    | PendingRotation(userId: UserId, expiresAt: Time, presented: Draw, sessionId: SessionId)

  datatype Conc = Conc(s: State, pending: map<Draw, Pending>)

  datatype Action =
    | LoginRead(email: string, password: string, metadata: SessionMetadata, jti: Draw)
    | LoginCommit(jti: Draw, sid: SessionId)
    | RefreshRead(jwt: RefreshJwt, jti: Draw)
    | RefreshCommit(jti: Draw)
    | Whole(call: Call)

  datatype Move = Move(at: Time, action: Action)

  function ActionDraws(a: Action): set<Draw> {
    match a
    case LoginRead(_, _, _, jti) => {jti}
    case LoginCommit(_, sid) => {sid}
    case RefreshRead(_, jti) => {jti}
    case RefreshCommit(_) => {}
    case Whole(call) => Draws(call)
  }

  function At(s: State, m: Move): State {
    s.(clock := m.at, drawn := s.drawn + ActionDraws(m.action))
  }

  /** What a pending call's transaction would do now; `None` when it would throw or nothing is pending. */
  function LoginCommitted(s: State, pending: map<Draw, Pending>, jti: Draw, sid: SessionId): Option<State> {
    if jti !in pending || !pending[jti].PendingLogin? then None else
    var p := pending[jti];
    Auth.CommitLogin(s, p.userId, p.metadata, sid, jti, p.expiresAt, p.checkedAt)
  }

  function RefreshCommitted(s: State, pending: map<Draw, Pending>, jti: Draw): Option<State> {
    if jti !in pending || !pending[jti].PendingRotation? then None else
    var p := pending[jti];
    Auth.CommitRefresh(s, p.presented, p.userId, p.sessionId, jti, p.expiresAt)
  }

  function Committed(o: Option<State>, s: State): State {
    if o.Some? then o.value else s
  }

  function Next(cfg: Config, c: Conc, m: Move): Conc {
    var s := At(c.s, m);
    match m.action
    case LoginRead(email, password, metadata, jti) => (
      match Auth.CheckLogin(s, email, password)
      case LoginRefused(_) => Conc(s, c.pending)
      case WrongPassword(u) => Conc(Auth.FailLogin(cfg, s, u).state, c.pending)
      case Accepted(u) =>
        var p := PendingLogin(u, cfg.StoredExpiry(s.clock), metadata, s.clock);
        Conc(Auth.MintFor(cfg, s, u, jti), c.pending[jti := p]))
    case LoginCommit(jti, sid) => Conc(Committed(LoginCommitted(s, c.pending, jti, sid), s), c.pending - {jti})
    case RefreshRead(jwt, jti) => (
      match Auth.CheckRefresh(s, jwt)
      case RefreshRefused(_) => Conc(s, c.pending)
      case Rotatable(sid) =>
        var p := PendingRotation(jwt.id, cfg.StoredExpiry(s.clock), jwt.jti, sid);
        Conc(Auth.MintFor(cfg, s, jwt.id, jti), c.pending[jti := p]))
    case RefreshCommit(jti) => Conc(Committed(RefreshCommitted(s, c.pending, jti), s), c.pending - {jti})
    case Whole(call) => Conc(Apply(cfg, s, call).state, c.pending)
  }

  predicate Enabled(c: Conc, m: Move) {
    c.s.clock <= m.at && ActionDraws(m.action) !! c.s.drawn
  }

  function Exec(cfg: Config, c: Conc, ms: seq<Move>): Conc
    decreases |ms|
  {
    if ms == [] then c else Exec(cfg, Next(cfg, c, ms[0]), ms[1..])
  }

  predicate EnabledRun(cfg: Config, c: Conc, ms: seq<Move>)
    decreases |ms|
  {
    ms == [] || (Enabled(c, ms[0]) && EnabledRun(cfg, Next(cfg, c, ms[0]), ms[1..]))
  }

  // ---------------------------------------------------------------- the invariant

  ghost predicate PendingOk(cfg: Config, c: Conc, j: Draw)
    requires j in c.pending
  {
    var p, g := c.pending[j], c.s.grants;
    && j in g.minted && Sha256Hex(j) !in g.tokens && g.minted[j].id == p.userId
    && p.expiresAt <= cfg.StoredExpiry(c.s.clock)
    && (p.PendingRotation? ==>
          && p.presented in g.minted && p.presented !in c.pending && g.minted[p.presented].id == p.userId
          && (Sha256Hex(p.presented) in g.tokens ==>
                && g.tokens[Sha256Hex(p.presented)].sessionId == p.sessionId
                && p.sessionId in g.sessions && g.sessions[p.sessionId].expiresAt <= p.expiresAt))
  }

  ghost predicate SessionsInTime(cfg: Config, s: State) {
    forall sid | sid in s.grants.sessions :: s.grants.sessions[sid].expiresAt <= cfg.StoredExpiry(s.clock)
  }

  ghost predicate GrantsDrawn(s: State) {
    s.grants.minted.Keys <= s.drawn && s.grants.sessions.Keys <= s.drawn
  }

  ghost predicate Coherent(cfg: Config, c: Conc) {
    && Matched(c.s.grants)
    && GrantsDrawn(c.s)
    && SessionsInTime(cfg, c.s)
    && forall j | j in c.pending :: PendingOk(cfg, c, j)
  }

  lemma PendingFacts(cfg: Config, c: Conc)
    requires Coherent(cfg, c)
    ensures forall j | j in c.pending :: j in c.s.grants.minted && Sha256Hex(j) !in c.s.grants.tokens
  {
    forall j | j in c.pending ensures j in c.s.grants.minted && Sha256Hex(j) !in c.s.grants.tokens {
      assert PendingOk(cfg, c, j);
    }
  }

  /** Pending calls survive a change whose only new tokens, `news`, are freshly minted or just committed. */
  lemma PendingSurvives(cfg: Config, c: Conc, c': Conc, news: set<Draw>)
    requires Coherent(cfg, c) && Matched(c'.s.grants) && c.s.clock <= c'.s.clock
    requires forall j | j in c'.pending && j !in news :: j in c.pending && c'.pending[j] == c.pending[j]
    requires forall n | n in news && n in c'.pending :: n !in c.pending
    requires forall n | n in news :: n !in c.s.grants.minted || n in c.pending
    requires forall j | j in c.s.grants.minted ::
        j in c'.s.grants.minted && c'.s.grants.minted[j] == c.s.grants.minted[j]
    requires forall h | h in c'.s.grants.tokens && h.preimage !in news ::
               h in c.s.grants.tokens && c'.s.grants.tokens[h] == c.s.grants.tokens[h]
    requires forall sid | sid in c'.s.grants.sessions && sid in c.s.grants.sessions ::
               c'.s.grants.sessions[sid].expiresAt == c.s.grants.sessions[sid].expiresAt
    ensures forall j | j in c'.pending && j !in news :: PendingOk(cfg, c', j)
  {
    TokenFacts(c.s.grants);
    TokenFacts(c'.s.grants);
    forall j | j in c'.pending && j !in news ensures PendingOk(cfg, c', j) {
      assert PendingOk(cfg, c, j);
    }
  }

  lemma DropKeepsCoherent(cfg: Config, c: Conc, c': Conc, doomed: set<SessionId>)
    requires Coherent(cfg, c) && c.s.clock <= c'.s.clock && c.s.drawn <= c'.s.drawn
    requires forall j | j in c'.pending :: j in c.pending && c'.pending[j] == c.pending[j]
    requires c'.s.grants == c.s.grants || c'.s.grants == DropSessions(c.s.grants, doomed)
    ensures Coherent(cfg, c')
  {
    DropKeepsMatched(c.s.grants, doomed);
    PendingSurvives(cfg, c, c', {});
  }

  /** A successful login commit keeps the matching and adds nothing but its own two rows. */
  lemma {:induction false} LoginCommitShape(cfg: Config, c: Conc, m: Move)
    requires Coherent(cfg, c) && m.action.LoginCommit?
    requires LoginCommitted(At(c.s, m), c.pending, m.action.jti, m.action.sid).Some?
    ensures m.action.jti in c.pending && c.pending[m.action.jti].expiresAt <= cfg.StoredExpiry(c.s.clock)
    ensures var s' := Next(cfg, c, m).s; s'.clock == m.at && s'.drawn == c.s.drawn + {m.action.sid}
    ensures var g, k := c.s.grants, Next(cfg, c, m).s.grants;
            && Matched(k)
            && k.minted == g.minted && k.sessions.Keys == g.sessions.Keys + {m.action.sid}
            && (forall x | x in g.sessions :: k.sessions[x] == g.sessions[x])
            && k.sessions[m.action.sid].expiresAt == c.pending[m.action.jti].expiresAt
            && (forall h | h in k.tokens && h.preimage != m.action.jti :: h in g.tokens && k.tokens[h] == g.tokens[h])
  {
    hide Apply;
    var j := m.action.jti;
    var p, g := c.pending[j], c.s.grants;
    assert PendingOk(cfg, c, j);
    CreateKeepsMatched(g, p.userId, p.metadata, m.action.sid, j, p.expiresAt, m.at);
    forall h: TokenHash | h.preimage == j ensures h == Sha256Hex(j) {}
  }

  lemma {:induction false} LoginCommitKeepsCoherent(cfg: Config, c: Conc, m: Move)
    requires Coherent(cfg, c) && c.s.clock <= m.at && m.action.LoginCommit?
    ensures Coherent(cfg, Next(cfg, c, m))
  {
    hide Apply, CreateSession, Matched;
    var s, c', j := At(c.s, m), Next(cfg, c, m), m.action.jti;
    if LoginCommitted(s, c.pending, j, m.action.sid).None? {
      DropKeepsCoherent(cfg, c, c', {});
    } else {
      LoginCommitShape(cfg, c, m);
      PendingSurvives(cfg, c, c', {j});
    }
  }

  /** A successful rotation commit keeps the matching and changes nothing but its own two rows. */
  lemma {:induction false} RefreshCommitShape(cfg: Config, c: Conc, m: Move)
    requires Coherent(cfg, c) && m.action.RefreshCommit?
    requires RefreshCommitted(At(c.s, m), c.pending, m.action.jti).Some?
    ensures var g, k := c.s.grants, Next(cfg, c, m).s.grants;
            && Matched(k)
            && k.minted == g.minted && k.sessions.Keys == g.sessions.Keys
            && (forall x | x in g.sessions :: k.sessions[x].expiresAt == g.sessions[x].expiresAt)
            && (forall h | h in k.tokens && h.preimage != m.action.jti :: h in g.tokens && k.tokens[h] == g.tokens[h])
  {
    hide Apply;
    var j := m.action.jti;
    var p, g := c.pending[j], c.s.grants;
    assert PendingOk(cfg, c, j);
    assert WellOwned(g, Sha256Hex(p.presented));
    RotateKeepsMatched(g, p.presented, p.userId, p.sessionId, j, p.expiresAt, m.at);
    RotateEffect(g, p.presented, p.userId, p.sessionId, j, p.expiresAt, m.at);
  }

  lemma {:induction false} RefreshCommitKeepsCoherent(cfg: Config, c: Conc, m: Move)
    requires Coherent(cfg, c) && c.s.clock <= m.at && m.action.RefreshCommit?
    ensures Coherent(cfg, Next(cfg, c, m))
  {
    hide Apply, Rotate, Matched;
    var s, c', j := At(c.s, m), Next(cfg, c, m), m.action.jti;
    if RefreshCommitted(s, c.pending, j).None? {
      DropKeepsCoherent(cfg, c, c', {});
    } else {
      RefreshCommitShape(cfg, c, m);
      PendingSurvives(cfg, c, c', {j});
    }
  }

  /** A read that mints a token and leaves a call pending under its fresh id. */
  lemma {:induction false} MintingKeepsCoherent(cfg: Config, c: Conc, c': Conc, j: Draw, jwt: RefreshJwt)
    requires Coherent(cfg, c) && c.s.clock <= c'.s.clock && j !in c.s.drawn && c'.s.drawn == c.s.drawn + {j}
    requires jwt.jti == j && c'.s.grants == Mint(c.s.grants, jwt)
    requires j in c'.pending && c'.pending == c.pending[j := c'.pending[j]]
    requires PendingOk(cfg, c', j)
    ensures Coherent(cfg, c')
  {
    MintKeepsMatched(c.s.grants, jwt);
    PendingFacts(cfg, c);
    PendingSurvives(cfg, c, c', {j});
  }

  lemma {:induction false} LoginReadKeepsCoherent(cfg: Config, c: Conc, m: Move)
    requires Coherent(cfg, c) && Enabled(c, m) && m.action.LoginRead?
    ensures Coherent(cfg, Next(cfg, c, m))
  {
    hide Apply;
    var s, c', j := At(c.s, m), Next(cfg, c, m), m.action.jti;
    var verdict := Auth.CheckLogin(s, m.action.email, m.action.password);
    if verdict.Accepted? {
      TokenFacts(c.s.grants);
      MintingKeepsCoherent(cfg, c, c', j, RefreshJwt(j, verdict.id, cfg.JwtExpiry(s.clock)));
    } else {
      DropKeepsCoherent(cfg, c, c', {});
    }
  }

  lemma {:induction false} RefreshReadKeepsCoherent(cfg: Config, c: Conc, m: Move)
    requires Coherent(cfg, c) && Enabled(c, m) && m.action.RefreshRead?
    ensures Coherent(cfg, Next(cfg, c, m))
  {
    hide Apply;
    var s, c', j := At(c.s, m), Next(cfg, c, m), m.action.jti;
    if Auth.CheckRefresh(s, m.action.jwt).Rotatable? {
      PendingFacts(cfg, c);
      TokenFacts(c.s.grants);
      MintingKeepsCoherent(cfg, c, c', j, RefreshJwt(j, m.action.jwt.id, cfg.JwtExpiry(s.clock)));
    } else {
      DropKeepsCoherent(cfg, c, c', {});
    }
  }

  // ---------------------------------------------------------------- whole calls are interleavings too

  /** The one-step login is the read followed at once by the commit. */
  lemma WholeLoginIsReadThenCommit(cfg: Config, c: Conc, at: Time, call: Call)
    requires call.Login? && call.jti !in c.pending
    ensures var read := Next(cfg, c, Move(at, LoginRead(call.email, call.password, call.metadata, call.jti)));
            Next(cfg, c, Move(at, Whole(call))) == Next(cfg, read, Move(at, LoginCommit(call.jti, call.sid)))
  {
    var read := Next(cfg, c, Move(at, LoginRead(call.email, call.password, call.metadata, call.jti)));
    assert read.s.drawn + {call.sid} == c.s.drawn + Draws(call);
    assert read.pending - {call.jti} == c.pending;
  }

  /** The one-step rotation is the read followed at once by the commit. */
  lemma WholeRefreshIsReadThenCommit(cfg: Config, c: Conc, at: Time, call: Call)
    requires call.Refresh? && call.jti !in c.pending
    ensures var read := Next(cfg, c, Move(at, RefreshRead(call.jwt, call.jti)));
            Next(cfg, c, Move(at, Whole(call))) == Next(cfg, read, Move(at, RefreshCommit(call.jti)))
  {
    var read := Next(cfg, c, Move(at, RefreshRead(call.jwt, call.jti)));
    assert read.s.drawn + {} == read.s.drawn;
    assert read.pending - {call.jti} == c.pending;
  }

  lemma {:induction false} StepKeepsCoherent(cfg: Config, c: Conc, m: Move)
    requires Coherent(cfg, c) && Enabled(c, m)
    ensures Coherent(cfg, Next(cfg, c, m))
  {
    hide Apply;
    if !m.action.Whole? {
      if m.action.LoginCommit? { LoginCommitKeepsCoherent(cfg, c, m); }
      else if m.action.RefreshCommit? { RefreshCommitKeepsCoherent(cfg, c, m); }
      else if m.action.LoginRead? { LoginReadKeepsCoherent(cfg, c, m); }
      else { RefreshReadKeepsCoherent(cfg, c, m); }
    } else {
      var call := m.action.call;
      PendingFacts(cfg, c);
      if call.Login? {
        WholeLoginIsReadThenCommit(cfg, c, m.at, call);
        var read := Move(m.at, LoginRead(call.email, call.password, call.metadata, call.jti));
        LoginReadKeepsCoherent(cfg, c, read);
        LoginCommitKeepsCoherent(cfg, Next(cfg, c, read), Move(m.at, LoginCommit(call.jti, call.sid)));
      } else if call.Refresh? {
        WholeRefreshIsReadThenCommit(cfg, c, m.at, call);
        var read := Move(m.at, RefreshRead(call.jwt, call.jti));
        RefreshReadKeepsCoherent(cfg, c, read);
        RefreshCommitKeepsCoherent(cfg, Next(cfg, c, read), Move(m.at, RefreshCommit(call.jti)));
      } else {
        OtherCallsOnlyDrop(cfg, At(c.s, m), call);
        CallsKeepTime(cfg, At(c.s, m), call);
        DropKeepsCoherent(cfg, c, Next(cfg, c, m), Doomed(cfg, At(c.s, m), call));
      }
    }
  }

  /** A whole-request step is one move with nothing pending. */
  lemma CallKeepsCoherent(cfg: Config, s: State, e: Event)
    requires Coherent(cfg, Conc(s, map[])) && Possible(s, e)
    ensures Coherent(cfg, Conc(Step(cfg, s, e), map[]))
  {
    StepKeepsCoherent(cfg, Conc(s, map[]), Move(e.at, Whole(e.call)));
  }
}
