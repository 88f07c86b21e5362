/** How many passwords a run can try against one account before somebody gets in. */
module Lockout {
  import opened Arithmetic
  import opened Model
  import opened GrantTables
  import opened Requests
  import opened Directory
  import opened Interleaving
  import Auth = AuthService

  /** A limit below one acts as one: the first failure locks. */
  function Limit(cfg: Config): nat {
    if cfg.maxFailedLogin < 1 then 1 else cfg.maxFailedLogin
  }

  predicate LockedExactlyAtTheLimit(cfg: Config, s: State) {
    forall u | u in s.accounts.users ::
      s.accounts.users[u].lockUntil.Some? <==> s.accounts.users[u].failedLoginAttempts >= Limit(cfg)
  }

  /** The call reaches the password comparison for user `u`. */
  predicate Compares(s: State, c: Call, u: UserId) {
    c.Login? &&
    var verdict := Auth.CheckLogin(s, c.email, c.password);
    verdict == Auth.Accepted(u) || verdict == Auth.WrongPassword(u)
  }

  function Comparisons(cfg: Config, s: State, es: seq<Event>, u: UserId): nat
    decreases |es|
  {
    if es == [] then 0
    else (if Compares(Arrive(s, es[0]), es[0].call, u) then 1 else 0)
         + Comparisons(cfg, Step(cfg, s, es[0]), es[1..], u)
  }

  /** The event logs user `u` in. */
  predicate LogsIn(cfg: Config, s: State, e: Event, u: UserId) {
    var outcome := Serve(cfg, s, e).outcome;
    outcome.LoggedIn? && outcome.user.id == u
  }

  predicate NobodyGetsIn(cfg: Config, s: State, es: seq<Event>, u: UserId)
    decreases |es|
  {
    es == [] || (!LogsIn(cfg, s, es[0], u) && NobodyGetsIn(cfg, Step(cfg, s, es[0]), es[1..], u))
  }

  /** Nothing but a login of that very account moves its failure count or its lock. */
  lemma OnlyLoginMovesTheCounter(cfg: Config, s: State, c: Call, u: UserId)
    requires u in s.accounts.users && !Compares(s, c, u)
    ensures var s' := Apply(cfg, s, c).state;
            && u in s'.accounts.users
            && s'.accounts.users[u].failedLoginAttempts == s.accounts.users[u].failedLoginAttempts
            && s'.accounts.users[u].lockUntil == s.accounts.users[u].lockUntil
  {
  }

  lemma {:induction false} ComparingKeepsLocks(cfg: Config, s: State, c: Call, u: UserId)
    requires Compares(s, c, u)
    requires s.accounts.users[u].lockUntil.Some? <==> s.accounts.users[u].failedLoginAttempts >= Limit(cfg)
    ensures var user := Apply(cfg, s, c).state.accounts.users[u];
            user.lockUntil.Some? <==> user.failedLoginAttempts >= Limit(cfg)
  {
  }

  lemma {:induction false} StepKeepsLocks(cfg: Config, s: State, e: Event)
    requires LockedExactlyAtTheLimit(cfg, s)
    ensures LockedExactlyAtTheLimit(cfg, Step(cfg, s, e))
  {
    hide Apply;
    var s1, s' := Arrive(s, e), Step(cfg, s, e);
    forall u | u in s'.accounts.users
      ensures s'.accounts.users[u].lockUntil.Some? <==> s'.accounts.users[u].failedLoginAttempts >= Limit(cfg)
    {
      if u !in s.accounts.users {
        NewcomersComeFromSignup(cfg, s1, e.call, u);
      } else if Compares(s1, e.call, u) {
        ComparingKeepsLocks(cfg, s1, e.call, u);
      } else {
        OnlyLoginMovesTheCounter(cfg, s1, e.call, u);
      }
    }
  }

  /** With fresh draws a login whose password matches always commits. */
  lemma AcceptedLoginSucceeds(cfg: Config, s: State, e: Event, u: UserId)
    requires Coherent(cfg, Conc(s, map[])) && Possible(s, e) && e.call.Login?
    ensures Auth.CheckLogin(Arrive(s, e), e.call.email, e.call.password) == Auth.Accepted(u) <==> LogsIn(cfg, s, e, u)
  {
    TokenFacts(s.grants);
  }

  /** `count` comparisons since `start`: at most the limit, plus one for each lock period since. */
  predicate Paid(cfg: Config, s: State, u: UserId, start: Time, count: nat)
    requires u in s.accounts.users
  {
    var user := s.accounts.users[u];
    if user.failedLoginAttempts < Limit(cfg) then count <= user.failedLoginAttempts
    else count > 0 ==>
           && user.lockUntil.Some? && user.lockUntil.value - cfg.LockMs() <= s.clock
           && (count - Limit(cfg)) * cfg.LockMs() <= user.lockUntil.value - cfg.LockMs() - start
  }

  lemma NothingToPayYet(cfg: Config, s: State, u: UserId, start: Time)
    requires u in s.accounts.users
    ensures Paid(cfg, s, u, start, 0)
  {
  }

  lemma {:induction false} StepKeepsPaid(cfg: Config, s: State, e: Event, u: UserId, start: Time, count: nat)
    requires cfg.lockMinutes > 0 && LockedExactlyAtTheLimit(cfg, s) && Coherent(cfg, Conc(s, map[]))
    requires Possible(s, e) && start <= e.at && u in s.accounts.users && !LogsIn(cfg, s, e, u)
    requires Paid(cfg, s, u, start, count)
    ensures u in Step(cfg, s, e).accounts.users
    ensures Paid(cfg, Step(cfg, s, e), u, start, count + if Compares(Arrive(s, e), e.call, u) then 1 else 0)
  {
    var s1, s' := Arrive(s, e), Step(cfg, s, e);
    if !Compares(s1, e.call, u) {
      OnlyLoginMovesTheCounter(cfg, s1, e.call, u);
    } else {
      AcceptedLoginSucceeds(cfg, s, e, u);
      var d: int, m: int := cfg.LockMs(), Limit(cfg);
      var before, after := s.accounts.users[u], s'.accounts.users[u];
      assert after == Auth.CountFailure(cfg, before, e.at).(updatedAt := e.at);
      if after.failedLoginAttempts >= m {
        if before.failedLoginAttempts < m {
          NonPositive(count + 1 - m, d);
        } else if count == 0 {
          NonPositive(1 - m, d);
        } else {
          assert (count + 1 - m) * d == (count - m) * d + d;
        }
      }
    }
  }

  lemma NonPositive(x: int, d: int)
    requires x <= 0 && d >= 0
    ensures x * d <= 0
  {
  }

  lemma {:induction false} RunKeepsPaid(cfg: Config, s: State, es: seq<Event>, u: UserId, start: Time, count: nat)
    requires cfg.lockMinutes > 0 && LockedExactlyAtTheLimit(cfg, s) && Coherent(cfg, Conc(s, map[]))
    requires PossibleRun(cfg, s, es) && (es != [] ==> start <= es[0].at)
    requires u in s.accounts.users && NobodyGetsIn(cfg, s, es, u)
    requires Paid(cfg, s, u, start, count)
    ensures u in Run(cfg, s, es).accounts.users
    ensures Paid(cfg, Run(cfg, s, es), u, start, count + Comparisons(cfg, s, es, u))
    decreases |es|
  {
    hide Apply, Paid, Compares, LogsIn, Coherent, LockedExactlyAtTheLimit;
    if es == [] {
    } else {
      StepKeepsPaid(cfg, s, es[0], u, start, count);
      StepKeepsLocks(cfg, s, es[0]);
      CallKeepsCoherent(cfg, s, es[0]);
      StepKeepsTime(cfg, s, es[0]);
      RunKeepsPaid(cfg, Step(cfg, s, es[0]), es[1..], u, start,
                   count + if Compares(Arrive(s, es[0]), es[0].call, u) then 1 else 0);
    }
  }

  lemma {:induction false} ClockOnlyAdvances(cfg: Config, s: State, es: seq<Event>)
    requires PossibleRun(cfg, s, es)
    ensures s.clock <= Run(cfg, s, es).clock
    decreases |es|
  {
    if es == [] {
    } else {
      StepKeepsTime(cfg, s, es[0]);
      ClockOnlyAdvances(cfg, Step(cfg, s, es[0]), es[1..]);
    }
  }

  lemma EndsAfterItsFirstEvent(cfg: Config, s: State, es: seq<Event>)
    requires es != [] && PossibleRun(cfg, s, es)
    ensures es[0].at <= Run(cfg, s, es).clock
  {
    StepKeepsTime(cfg, s, es[0]);
    ClockOnlyAdvances(cfg, Step(cfg, s, es[0]), es[1..]);
  }

  lemma PaidIsBounded(cfg: Config, s: State, u: UserId, start: Time, count: nat, d: nat)
    requires d == cfg.LockMs() > 0 && start <= s.clock && u in s.accounts.users && Paid(cfg, s, u, start, count)
    ensures count <= Limit(cfg) + (s.clock - start) / d
  {
    assert count > Limit(cfg) ==> (count - Limit(cfg)) * d <= s.clock - start;
    ExcessFits(count, Limit(cfg), s.clock - start, d);
  }

  /** A comparison that does not let the caller in counts one failure, and locks for a full period at the limit. */
  lemma {:induction false} FailureCounts(cfg: Config, s: State, e: Event, u: UserId)
    requires Coherent(cfg, Conc(s, map[])) && Possible(s, e)
    requires Compares(Arrive(s, e), e.call, u) && !LogsIn(cfg, s, e, u)
    ensures u in s.accounts.users && u in Step(cfg, s, e).accounts.users
    ensures var before, after := s.accounts.users[u], Step(cfg, s, e).accounts.users[u];
            && after.failedLoginAttempts == before.failedLoginAttempts + 1
            && (if after.failedLoginAttempts >= Limit(cfg)
                then after.lockUntil == Some(e.at + cfg.LockMs()) && Serve(cfg, s, e).outcome == Failed(AccountLocked)
                else after.lockUntil == before.lockUntil && Serve(cfg, s, e).outcome == Failed(InvalidCredentials))
  {
    AcceptedLoginSucceeds(cfg, s, e, u);
  }

  lemma {:induction false} GettingInClears(cfg: Config, s: State, e: Event, u: UserId)
    requires LogsIn(cfg, s, e, u)
    ensures u in Step(cfg, s, e).accounts.users
    ensures var after := Step(cfg, s, e).accounts.users[u];
            after.failedLoginAttempts == 0 && after.lockUntil.None? && after.lastLoginAt == Some(e.at)
  {
  }

  lemma LastLoginColumn(cfg: Config, s: State, c: Call, u: UserId)
    requires u in s.accounts.users
    ensures var reply := Apply(cfg, s, c);
            && u in reply.state.accounts.users
            && (!(reply.outcome.LoggedIn? && reply.outcome.user.id == u) ==>
                  reply.state.accounts.users[u].lastLoginAt == s.accounts.users[u].lastLoginAt)
  {
  }

  /** Only getting in clears count and lock, and only it stamps `lastLoginAt`. */
  lemma {:induction false} OnlyGettingInClears(cfg: Config, s: State, e: Event, u: UserId)
    requires Coherent(cfg, Conc(s, map[])) && Possible(s, e) && u in s.accounts.users
    ensures u in Step(cfg, s, e).accounts.users
    ensures var before, after := s.accounts.users[u], Step(cfg, s, e).accounts.users[u];
            if LogsIn(cfg, s, e, u)
            then after.failedLoginAttempts == 0 && after.lockUntil.None? && after.lastLoginAt == Some(e.at)
            else && before.failedLoginAttempts <= after.failedLoginAttempts
                 && (before.lockUntil.Some? ==> after.lockUntil.Some?)
                 && after.lastLoginAt == before.lastLoginAt
  {
    hide Apply;
    LastLoginColumn(cfg, Arrive(s, e), e.call, u);
    if LogsIn(cfg, s, e, u) { GettingInClears(cfg, s, e, u); }
    else if Compares(Arrive(s, e), e.call, u) { FailureCounts(cfg, s, e, u); }
    else { OnlyLoginMovesTheCounter(cfg, Arrive(s, e), e.call, u); }
  }

  /** The failure count is the number of comparisons since somebody last got in. */
  lemma {:induction false} CountIsExact(cfg: Config, s: State, es: seq<Event>, u: UserId)
    requires Coherent(cfg, Conc(s, map[])) && PossibleRun(cfg, s, es)
    requires u in s.accounts.users && NobodyGetsIn(cfg, s, es, u)
    ensures u in Run(cfg, s, es).accounts.users
    ensures Run(cfg, s, es).accounts.users[u].failedLoginAttempts
            == s.accounts.users[u].failedLoginAttempts + Comparisons(cfg, s, es, u)
    decreases |es|
  {
    hide Apply;
    if es == [] {
    } else {
      if Compares(Arrive(s, es[0]), es[0].call, u) { FailureCounts(cfg, s, es[0], u); }
      else { OnlyLoginMovesTheCounter(cfg, Arrive(s, es[0]), es[0].call, u); }
      CallKeepsCoherent(cfg, s, es[0]);
      CountIsExact(cfg, Step(cfg, s, es[0]), es[1..], u);
    }
  }

  /**
   In a stretch of any run during which nobody logs in to the account, the number of passwords compared
   is at most the limit plus one for every full lock period between its first and its last event.
   */
  lemma LockoutBound(cfg: Config, s: State, es: seq<Event>, u: UserId, lock: Time)
    requires lock == cfg.lockMinutes * 60 * 1000 > 0 && LockedExactlyAtTheLimit(cfg, s) && Coherent(cfg, Conc(s, map[]))
    requires es != [] && PossibleRun(cfg, s, es) && u in s.accounts.users && NobodyGetsIn(cfg, s, es, u)
    ensures Comparisons(cfg, s, es, u) <= Limit(cfg) + (Run(cfg, s, es).clock - es[0].at) / lock
  {
    hide Apply, Run, PossibleRun, NobodyGetsIn, Comparisons, Coherent, LockedExactlyAtTheLimit, Paid;
    NothingToPayYet(cfg, s, u, es[0].at);
    RunKeepsPaid(cfg, s, es, u, es[0].at, 0);
    EndsAfterItsFirstEvent(cfg, s, es);
    var s', n, start := Run(cfg, s, es), Comparisons(cfg, s, es, u), es[0].at;
    PaidIsBounded(cfg, s', u, start, n, lock);
  }

  // ---------------------------------------------------------------- when an account is locked

  /** A login clears the list of failed comparisons, a failed one adds its moment. */
  function FailuresAfter(cfg: Config, s: State, e: Event, u: UserId, failures: seq<Time>): seq<Time> {
    if LogsIn(cfg, s, e, u) then []
    else if Compares(Arrive(s, e), e.call, u) then failures + [e.at]
    else failures
  }

  /** The moments of the comparisons for `u` before event `n`, from the last time that somebody got in. */
  function Failures(cfg: Config, es: seq<Event>, n: nat, u: UserId): seq<Time>
    requires n <= |es|
    decreases n
  {
    if n == 0 then []
    else FailuresAfter(cfg, StateAt(cfg, es, n - 1), es[n - 1], u, Failures(cfg, es, n - 1, u))
  }

  /** The lock that these comparisons leave: from the limit on, a full period from the last of them. */
  function LockFrom(cfg: Config, failures: seq<Time>): Option<Time> {
    if |failures| >= Limit(cfg) then Some(failures[|failures| - 1] + cfg.LockMs()) else None
  }

  ghost predicate CountedAndLocked(cfg: Config, s: State, u: UserId, failures: seq<Time>) {
    if u !in s.accounts.users then failures == []
    else && s.accounts.users[u].failedLoginAttempts == |failures|
         && s.accounts.users[u].lockUntil == LockFrom(cfg, failures)
  }

  lemma {:induction false} CoherentAt(cfg: Config, es: seq<Event>, n: nat)
    requires n <= |es| && PossibleRun(cfg, EMPTY, es)
    ensures Coherent(cfg, Conc(StateAt(cfg, es, n), map[]))
    decreases n
  {
    if n == 0 {
    } else {
      hide Apply, Coherent;
      CoherentAt(cfg, es, n - 1);
      PrefixesArePossible(cfg, EMPTY, es, n - 1);
      CallKeepsCoherent(cfg, StateAt(cfg, es, n - 1), es[n - 1]);
      StateAtNext(cfg, es, n - 1);
    }
  }

  lemma {:induction false} StepCountsAndLocks(cfg: Config, s: State, e: Event, u: UserId, failures: seq<Time>)
    requires Coherent(cfg, Conc(s, map[])) && Possible(s, e) && CountedAndLocked(cfg, s, u, failures)
    ensures CountedAndLocked(cfg, Step(cfg, s, e), u, FailuresAfter(cfg, s, e, u, failures))
  {
    hide Apply, Coherent;
    if LogsIn(cfg, s, e, u) {
      GettingInClears(cfg, s, e, u);
    } else if Compares(Arrive(s, e), e.call, u) {
      FailureCounts(cfg, s, e, u);
    } else if u in s.accounts.users {
      OnlyLoginMovesTheCounter(cfg, Arrive(s, e), e.call, u);
    } else if u in Step(cfg, s, e).accounts.users {
      NewcomersComeFromSignup(cfg, Arrive(s, e), e.call, u);
    }
  }

  lemma NothingCountedYet(cfg: Config, u: UserId)
    ensures CountedAndLocked(cfg, EMPTY, u, [])
  {
  }

  lemma {:induction false} RunCountsAndLocks(cfg: Config, es: seq<Event>, n: nat, u: UserId)
    requires n <= |es| && PossibleRun(cfg, EMPTY, es)
    ensures CountedAndLocked(cfg, StateAt(cfg, es, n), u, Failures(cfg, es, n, u))
    decreases n
  {
    hide Apply, Coherent, FailuresAfter, CountedAndLocked;
    if n == 0 {
      NothingCountedYet(cfg, u);
    } else {
      RunCountsAndLocks(cfg, es, n - 1, u);
      CoherentAt(cfg, es, n - 1);
      PrefixesArePossible(cfg, EMPTY, es, n - 1);
      StepCountsAndLocks(cfg, StateAt(cfg, es, n - 1), es[n - 1], u, Failures(cfg, es, n - 1, u));
      StateAtNext(cfg, es, n - 1);
    }
  }

  /** Locked for login and for the gate alike. */
  predicate Locked(s: State, u: UserId, now: Time) {
    u in s.accounts.users && s.accounts.users[u].lockUntil.Some? && now < s.accounts.users[u].lockUntil.value
  }

  /**
   After any possible run an account is locked at a moment if and only if the comparisons since somebody last got
   in have reached the limit and that moment lies before the last of them plus the lock period.
   */
  lemma LockedExactly(cfg: Config, es: seq<Event>, n: nat, u: UserId, now: Time)
    requires n <= |es| && PossibleRun(cfg, EMPTY, es)
    ensures var failures := Failures(cfg, es, n, u);
            Locked(StateAt(cfg, es, n), u, now)
            <==> |failures| >= Limit(cfg) && now < failures[|failures| - 1] + cfg.lockMinutes * 60 * 1000
  {
    hide StateAt, Failures;
    RunCountsAndLocks(cfg, es, n, u);
  }
}
