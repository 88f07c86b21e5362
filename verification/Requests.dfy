/** Service calls as data, and whole-request runs: every call is one step. */
module Requests {
  import opened Model
  import Auth = AuthService
  import Self = UserService
  import Admin = AdminService

  datatype Call =
    | Signup(firstName: string, lastName: string, email: string, password: string, uid: UserId, raw: Draw)
    | Login(email: string, password: string, metadata: SessionMetadata, sid: SessionId, jti: Draw)
    | Logout(token: Option<RefreshJwt>)
    | Refresh(jwt: RefreshJwt, jti: Draw)
    | VerifyEmail(raw: Draw)
    | ResendVerification(userId: UserId, raw: Draw)
    | ForgotPassword(email: string, raw: Draw)
    | ResetPassword(raw: Draw, newPassword: string)
    | ChangePassword(userId: UserId, currentPassword: string, newPassword: string)
    | GetMe(userId: UserId)
    | RevokeAllSessions(userId: UserId)
    | UpdateProfile(userId: UserId, newFirst: Option<string>, newLast: Option<string>, newUsername: Option<string>)
    | DeleteAccount(userId: UserId)
    | GetSessions(userId: UserId)
    | RevokeSession(userId: UserId, sid: SessionId)
    | GetAllUsers(page: PageNumber, limit: PageLimit)
    | GetUserById(target: UserId)
    | UpdateUserRole(target: UserId, role: Role)
    | UpdateUserStatus(target: UserId, status: SettableStatus)
    | DeleteUser(target: UserId)
    | FlushCache

  function Apply(cfg: Config, s: State, c: Call): Reply {
    match c
    case Signup(firstName, lastName, email, password, uid, raw) =>
      Auth.Signup(s, firstName, lastName, email, password, uid, raw)
    case Login(email, password, metadata, sid, jti) => Auth.Login(cfg, s, email, password, metadata, sid, jti)
    case Logout(token) => Auth.LogoutCall(s, token)
    case Refresh(jwt, jti) => Auth.Refresh(cfg, s, jwt, jti)
    case VerifyEmail(raw) => Auth.VerifyEmail(s, raw)
    case ResendVerification(u, raw) => Auth.ResendVerification(s, u, raw)
    case ForgotPassword(email, raw) => Auth.ForgotPassword(s, email, raw)
    case ResetPassword(raw, newPassword) => Auth.ResetPassword(s, raw, newPassword)
    case ChangePassword(u, current, new') => Auth.ChangePassword(s, u, current, new')
    case GetMe(u) => Auth.GetMe(s, u)
    case RevokeAllSessions(u) => Auth.RevokeAllSessions(s, u)
    case UpdateProfile(u, f, l, n) => Self.UpdateProfile(s, u, f, l, n)
    case DeleteAccount(u) => Self.DeleteAccount(s, u)
    case GetSessions(u) => Self.GetSessions(s, u)
    case RevokeSession(u, sid) => Self.RevokeSession(s, u, sid)
    case GetAllUsers(page, limit) => Admin.GetAllUsers(s, page, limit)
    case GetUserById(u) => Admin.GetUserById(s, u)
    case UpdateUserRole(u, role) => Admin.UpdateUserRole(s, u, role)
    case UpdateUserStatus(u, status) => Admin.UpdateUserStatus(s, u, status)
    case DeleteUser(u) => Admin.DeleteUser(s, u)
    case FlushCache => Reply(s.(cache := Cache(map[], map[], map[])), Done)
  }

  /** The random values a call may use up. */
  function Draws(c: Call): set<Draw> {
    match c
    case Signup(_, _, _, _, uid, raw) => {uid, raw}
    case Login(_, _, _, sid, jti) => {sid, jti}
    case Refresh(_, jti) => {jti}
    case ResendVerification(_, raw) => {raw}
    case ForgotPassword(_, raw) => {raw}
    case _ => {}
  }

  /** A call and the moment it is served. */
  datatype Event = Event(at: Time, call: Call)

  /** The state in which the event's call starts. */
  function Arrive(s: State, e: Event): State {
    s.(clock := e.at, drawn := s.drawn + Draws(e.call))
  }

  function Serve(cfg: Config, s: State, e: Event): Reply {
    Apply(cfg, Arrive(s, e), e.call)
  }

  function Step(cfg: Config, s: State, e: Event): State {
    Serve(cfg, s, e).state
  }

  /** Time does not go back, and the generators do not repeat themselves. */
  predicate Possible(s: State, e: Event) {
    s.clock <= e.at && Draws(e.call) !! s.drawn
  }

  function Run(cfg: Config, s: State, es: seq<Event>): State
    decreases |es|
  {
    if es == [] then s else Run(cfg, Step(cfg, s, es[0]), es[1..])
  }

  predicate PossibleRun(cfg: Config, s: State, es: seq<Event>)
    decreases |es|
  {
    es == [] || (Possible(s, es[0]) && PossibleRun(cfg, Step(cfg, s, es[0]), es[1..]))
  }

  lemma CallsKeepTime(cfg: Config, s: State, c: Call)
    ensures Apply(cfg, s, c).state.clock == s.clock && Apply(cfg, s, c).state.drawn == s.drawn
  {
  }

  lemma StepKeepsTime(cfg: Config, s: State, e: Event)
    ensures Step(cfg, s, e).clock == e.at
    ensures Step(cfg, s, e).drawn == s.drawn + Draws(e.call)
  {
    hide Apply;
    CallsKeepTime(cfg, Arrive(s, e), e.call);
  }

  lemma {:induction false} RunSnoc(cfg: Config, s: State, es: seq<Event>, e: Event)
    ensures Run(cfg, s, es + [e]) == Step(cfg, Run(cfg, s, es), e)
    decreases |es|
  {
    if es == [] {
      assert ([] + [e])[1..] == [];
    } else {
      assert (es + [e])[1..] == es[1..] + [e];
      RunSnoc(cfg, Step(cfg, s, es[0]), es[1..], e);
    }
  }

  /** The state in which event `n` of a run from the empty store arrives. */
  function StateAt(cfg: Config, es: seq<Event>, n: nat): State
    requires n <= |es|
  {
    Run(cfg, EMPTY, es[..n])
  }

  lemma StateAtNext(cfg: Config, es: seq<Event>, n: nat)
    requires n < |es|
    ensures StateAt(cfg, es, n + 1) == Step(cfg, StateAt(cfg, es, n), es[n])
  {
    hide Apply;
    assert es[..n + 1] == es[..n] + [es[n]];
    RunSnoc(cfg, EMPTY, es[..n], es[n]);
  }

  lemma {:induction false} PrefixesArePossible(cfg: Config, s: State, es: seq<Event>, n: nat)
    requires n < |es| && PossibleRun(cfg, s, es)
    ensures Possible(Run(cfg, s, es[..n]), es[n])
    decreases n
  {
    hide Apply;
    if n == 0 {
    } else {
      assert es[..n][1..] == es[1..][..n - 1];
      PrefixesArePossible(cfg, Step(cfg, s, es[0]), es[1..], n - 1);
    }
  }
}
