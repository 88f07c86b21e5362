/** Which password an account answers to, over any whole-request run. */
module Passwords {
  import opened Model
  import opened Requests
  import opened Directory
  import Auth = AuthService

  /** The password this event sets for user `u`, if it sets one. */
  function Sets(cfg: Config, s: State, e: Event, u: UserId): seq<string> {
    var s1 := Arrive(s, e);
    if Apply(cfg, s1, e.call).outcome != Done then [] else
    match e.call
    case Signup(_, _, _, password, uid, _) => if uid == u then [password] else []
    case ChangePassword(v, _, newPassword) => if v == u then [newPassword] else []
    case ResetPassword(raw, newPassword) =>
      if Auth.FindReset(s1, raw).Some? && Auth.FindReset(s1, raw).value.userId == u then [newPassword] else []
    case _ => []
  }

  /** Every password set for `u` during the run, in order. */
  function History(cfg: Config, s: State, es: seq<Event>, u: UserId): seq<string>
    decreases |es|
  {
    if es == [] then [] else Sets(cfg, s, es[0], u) + History(cfg, Step(cfg, s, es[0]), es[1..], u)
  }

  /** The password `u` has now, as a history of at most one entry. */
  function Present(s: State, u: UserId): seq<string> {
    if u in s.accounts.users then [s.accounts.users[u].password.password] else []
  }

  predicate NeverRepeats(h: seq<string>) {
    forall i | 0 <= i < |h| - 1 :: h[i] != h[i + 1]
  }

  function Last(h: seq<string>): seq<string> {
    if h == [] then [] else [h[|h| - 1]]
  }

  predicate MaySet(c: Call) {
    c.Signup? || c.ChangePassword? || c.ResetPassword?
  }

  lemma OtherCallsKeepPasswords(cfg: Config, s: State, c: Call, u: UserId)
    requires !MaySet(c)
    ensures Present(Apply(cfg, s, c).state, u) == Present(s, u)
  {
  }

  lemma {:induction false} SettingAppends(cfg: Config, s: State, e: Event, u: UserId)
    requires MaySet(e.call)
    ensures Present(Step(cfg, s, e), u) == Last(Present(s, u) + Sets(cfg, s, e, u))
    ensures NeverRepeats(Present(s, u) + Sets(cfg, s, e, u))
  {
    var s1 := Arrive(s, e);
    if Apply(cfg, s1, e.call).outcome != Done {
      assert Present(Apply(cfg, s1, e.call).state, u) == Present(s, u);
    } else if e.call.Signup? {
    } else if e.call.ChangePassword? {
    } else {
    }
  }

  lemma {:induction false} StepAppends(cfg: Config, s: State, e: Event, u: UserId)
    ensures Present(Step(cfg, s, e), u) == Last(Present(s, u) + Sets(cfg, s, e, u))
    ensures NeverRepeats(Present(s, u) + Sets(cfg, s, e, u))
  {
    hide Apply;
    if MaySet(e.call) {
      SettingAppends(cfg, s, e, u);
    } else {
      OtherCallsKeepPasswords(cfg, Arrive(s, e), e.call, u);
    }
  }

  lemma {:induction false} RunAppends(cfg: Config, s: State, es: seq<Event>, u: UserId)
    ensures Present(Run(cfg, s, es), u) == Last(Present(s, u) + History(cfg, s, es, u))
    ensures NeverRepeats(Present(s, u) + History(cfg, s, es, u))
    decreases |es|
  {
    hide Apply, Sets;
    if es == [] {
      assert Present(s, u) + [] == Present(s, u);
    } else {
      var s' := Step(cfg, s, es[0]);
      StepAppends(cfg, s, es[0], u);
      RunAppends(cfg, s', es[1..], u);
      Splice(Present(s, u) + Sets(cfg, s, es[0], u), History(cfg, s', es[1..], u));
      assert Present(s, u) + History(cfg, s, es, u)
          == Present(s, u) + Sets(cfg, s, es[0], u) + History(cfg, s', es[1..], u);
    }
  }

  lemma Splice(a: seq<string>, b: seq<string>)
    requires NeverRepeats(a) && NeverRepeats(Last(a) + b)
    ensures NeverRepeats(a + b) && Last(a + b) == Last(Last(a) + b)
  {
    if a != [] {
      var c := Last(a) + b;
      forall i | 0 <= i < |a + b| - 1 ensures (a + b)[i] != (a + b)[i + 1] {
        if i >= |a| - 1 {
          assert (a + b)[i] == c[i - (|a| - 1)] && (a + b)[i + 1] == c[i + 1 - (|a| - 1)];
        }
      }
    } else {
      assert a + b == b && Last(a) + b == b;
    }
  }

  /**
   After any possible run, and at any moment, login accepts a password for the account that has the email, if that
   account is neither barred nor locked then, exactly when it is the last one that signup, change or reset set; and
   no password ever followed itself.
   */
  lemma LoginAcceptsTheLastPassword(cfg: Config, es: seq<Event>, at: Time, email: string, password: string, u: UserId)
    requires PossibleRun(cfg, EMPTY, es)
    ensures var s, h := Run(cfg, EMPTY, es), History(cfg, EMPTY, es, u);
            && (u in s.accounts.users <==> h != [])
            && NeverRepeats(h)
            && (u in s.accounts.users && s.accounts.users[u].email == email
                && s.accounts.users[u].status !in {DELETED, SUSPENDED, BANNED}
                && (s.accounts.users[u].lockUntil.None? || s.accounts.users[u].lockUntil.value <= at) ==>
                  (Auth.CheckLogin(s.(clock := at), email, password) == Auth.Accepted(u) <==> password == h[|h| - 1]))
  {
    hide Run, PossibleRun, History;
    RunKeepsDirectory(cfg, EMPTY, es);
    RunAppends(cfg, EMPTY, es, u);
    assert Present(EMPTY, u) + History(cfg, EMPTY, es, u) == History(cfg, EMPTY, es, u);
  }

  /** A password change goes through exactly for the last password set, and to a different one. */
  lemma ChangingNeedsTheLastPassword(cfg: Config, es: seq<Event>, at: Time, u: UserId, current: string, new': string)
    ensures var s, h := Run(cfg, EMPTY, es), History(cfg, EMPTY, es, u);
            Serve(cfg, s, Event(at, ChangePassword(u, current, new'))).outcome == Done
            <==> h != [] && current == h[|h| - 1] != new'
  {
    RunAppends(cfg, EMPTY, es, u);
    assert Present(EMPTY, u) + History(cfg, EMPTY, es, u) == History(cfg, EMPTY, es, u);
  }
}
