/**
 The requests that the rate limiter lets through, dated when it lets them through: after INCR, EXPIRE and TTL,
 however long these took.
 */
module Throughput {
  import opened Arithmetic
  import opened Model
  import opened RateLimiter

  /** The TTL was answered, and the number that INCR gave this request is within the limit. */
  predicate Passes(lim: Limits, l: Limiter, m: Move, ip: Ip) {
    && m.action.Continue? && m.action.id in l.pending
    && l.pending[m.action.id].MustAskTtl? && Waits(lim, l, m.action.id, ip)
  }

  function Passed(lim: Limits, l: Limiter, ms: seq<Move>, ip: Ip): nat
    decreases |ms|
  {
    if ms == [] then 0
    else (if Passes(lim, l, ms[0], ip) then 1 else 0) + Passed(lim, Next(lim, l, ms[0]), ms[1..], ip)
  }

  function Number(p: Pending): nat {
    if p.MustExpire? then 1 else p.count
  }

  predicate Waits(lim: Limits, l: Limiter, id: nat, ip: Ip) {
    id in l.pending && l.pending[id].ip == ip && Number(l.pending[id]) <= lim.maxRequests
  }

  /** The requests of an address that are in flight and will be let through. */
  function Waiting(lim: Limits, l: Limiter, ip: Ip): set<nat> {
    set id | id in l.pending && Waits(lim, l, id, ip)
  }

  lemma StepMovesWaiting(lim: Limits, l: Limiter, m: Move, ip: Ip)
    requires Enabled(l, m)
    ensures Waiting(lim, Next(lim, l, m), ip)
            == if Admits(lim, l, m, ip) then Waiting(lim, l, ip) + {m.action.id}
               else if Passes(lim, l, m, ip) then Waiting(lim, l, ip) - {m.action.id}
               else Waiting(lim, l, ip)
  {
    var l' := Next(lim, l, m);
    forall id
      ensures Waits(lim, l', id, ip)
              <==> if id == m.action.id && Admits(lim, l, m, ip) then true
                   else Waits(lim, l, id, ip) && !(id == m.action.id && Passes(lim, l, m, ip))
    {
    }
  }

  /** Nobody is lost and nobody is let through twice: who was admitted or waited has passed or waits. */
  lemma {:induction false} EveryAdmittedPasses(lim: Limits, l: Limiter, ms: seq<Move>, ip: Ip)
    requires EnabledRun(lim, l, ms)
    ensures Passed(lim, l, ms, ip) + |Waiting(lim, Exec(lim, l, ms), ip)|
            == Admitted(lim, l, ms, ip) + |Waiting(lim, l, ip)|
    decreases |ms|
  {
    if ms == [] {
    } else {
      EveryAdmittedPasses(lim, Next(lim, l, ms[0]), ms[1..], ip);
      StepMovesWaiting(lim, l, ms[0], ip);
    }
  }

  // ---------------------------------------------------------------- the bound

  /** From the first move of a run to its last. */
  function Length(lim: Limits, l: Limiter, ms: seq<Move>): Time
    requires ms != []
  {
    Exec(lim, l, ms).clock - ms[0].at
  }

  /** Up to those who were in flight before, the bound on admissions bounds the requests let through. */
  lemma ThroughputBound(lim: Limits, l: Limiter, ms: seq<Move>, ip: Ip, w: Time, t: Time)
    requires w == lim.windowSeconds * 1000 > 0 && Guarded(l) && ms != [] && EnabledRun(lim, l, ms)
    requires t == Length(lim, l, ms)
    ensures Passed(lim, l, ms, ip) <= |Waiting(lim, l, ip)| + lim.Max() * (t / w + 2)
  {
    EveryAdmittedPasses(lim, l, ms, ip);
    RateBound(lim, l, ms, ip, w, t);
  }

  /**
   How many may be in flight before the bound breaks: what the present lifetime has used up, and another maximum
   when the key has no expiry yet, because no second lifetime can begin within the window; the maximum when there
   is no key.
   */
  function Slack(lim: Limits, l: Limiter, ip: Ip): int {
    if !Alive(l.redis, ip, l.clock) then lim.Max()
    else if l.redis[ip].expiresAt.Some? then lim.Max() - Left(lim, l.redis, ip, l.clock)
    else 2 * lim.Max() - Left(lim, l.redis, ip, l.clock)
  }

  lemma SlackBudget(lim: Limits, l: Limiter, ip: Ip, start: Time, end: Time, w: Time, q: nat)
    requires w == lim.WindowMs() > 0 && Guarded(l) && l.clock <= start <= end && q == (end - start) / w
    ensures Budget(lim, l.redis, ip, start, end) + Slack(lim, l, ip) <= lim.Max() * (q + 2)
  {
    var m := lim.Max();
    var next := NextStart(lim, l.redis, ip, start);
    var k := Starts(next, end, w);
    assert m * (q + 2) == m * (q + 1) + m && m * (q + 1) == m * q + m;
    if Alive(l.redis, ip, start) && l.redis[ip].expiresAt.None? {
      StartsShift(start, end, w);
      assert k == q;
    } else {
      StartsMonotone(start, next, end, w);
      MulMonotone(m, k, q + 1);
    }
  }

  lemma EnoughSlack(lim: Limits, l: Limiter, ms: seq<Move>, ip: Ip, w: Time, q: int)
    requires w == lim.WindowMs() > 0 && Guarded(l) && ms != [] && EnabledRun(lim, l, ms)
    requires q == Length(lim, l, ms) / w && |Waiting(lim, l, ip)| <= Slack(lim, l, ip)
    ensures Passed(lim, l, ms, ip) <= lim.Max() * (q + 2)
  {
    hide Next, Slack, Budget, Waiting, Guarded, Passed, Admitted, Exec, EnabledRun;
    var start, end := ms[0].at, Exec(lim, l, ms).clock;
    EveryAdmittedPasses(lim, l, ms, ip);
    RunFromItsFirstMove(lim, l, ms, ip);
    DivIs(0, w, 0, 0);
    DivMonotone(0, end - start, w);
    SlackBudget(lim, l, ip, start, end, w, q);
  }

  lemma RunFromItsFirstMove(lim: Limits, l: Limiter, ms: seq<Move>, ip: Ip)
    requires lim.WindowMs() > 0 && Guarded(l) && ms != [] && EnabledRun(lim, l, ms)
    ensures l.clock <= ms[0].at <= Exec(lim, l, ms).clock
    ensures Admitted(lim, l, ms, ip) <= Budget(lim, l.redis, ip, ms[0].at, Exec(lim, l, ms).clock)
  {
    hide Next, Budget;
    var start := ms[0].at;
    FirstMoveSetsTheClock(lim, l, ms[0], start);
    RunPaysFromTheBudget(lim, l.(clock := start), ms, ip, Exec(lim, l, ms).clock);
    ClockOnlyAdvances(lim, l.(clock := start), ms);
  }

  // ---------------------------------------------------------------- and the runs that break it

  lemma {:induction false} RunsAppend(lim: Limits, l: Limiter, a: seq<Move>, b: seq<Move>, ip: Ip)
    requires EnabledRun(lim, l, a) && EnabledRun(lim, Exec(lim, l, a), b)
    ensures EnabledRun(lim, l, a + b) && Exec(lim, l, a + b) == Exec(lim, Exec(lim, l, a), b)
    ensures Admitted(lim, l, a + b, ip) == Admitted(lim, l, a, ip) + Admitted(lim, Exec(lim, l, a), b, ip)
    decreases |a|
  {
    hide Next, Admits, Enabled;
    if a == [] {
      assert a + b == b;
    } else {
      assert (a + b)[1..] == a[1..] + b;
      RunsAppend(lim, Next(lim, l, a[0]), a[1..], b, ip);
    }
  }

  lemma {:induction false} ClockStaysWithin(lim: Limits, l: Limiter, ms: seq<Move>, end: Time)
    requires l.clock <= end && forall m | m in ms :: m.at <= end
    ensures Exec(lim, l, ms).clock <= end
    decreases |ms|
  {
    if ms == [] {
    } else {
      assert ms[0] in ms;
      ClockStaysWithin(lim, Next(lim, l, ms[0]), ms[1..], end);
    }
  }

  lemma FreshId(pending: map<nat, Pending>) returns (id: nat)
    ensures id !in pending
  {
    id := 0;
    var seen := {};
    while id in pending
      invariant seen <= pending.Keys && forall k :: k in seen <==> 0 <= k < id
      decreases |pending.Keys - seen|
    {
      assert id in pending.Keys - seen;
      seen := seen + {id};
      id := id + 1;
    }
  }

  /** How many of an address can still be admitted at this moment. */
  function Room(lim: Limits, r: Redis, ip: Ip, now: Time): nat {
    if Alive(r, ip, now) then Left(lim, r, ip, now) else lim.Max()
  }

  lemma ArrivalTakesRoom(lim: Limits, l: Limiter, ip: Ip, now: Time, id: nat)
    requires l.clock <= now && id !in l.pending && Room(lim, l.redis, ip, now) > 0
    ensures var m := Move(now, Arrive(id, ip));
            && Enabled(l, m) && Admits(lim, l, m, ip)
            && Alive(Next(lim, l, m).redis, ip, now)
            && Room(lim, Next(lim, l, m).redis, ip, now) == Room(lim, l.redis, ip, now) - 1
            && (Alive(l.redis, ip, now) ==> Next(lim, l, m).redis[ip].expiresAt == l.redis[ip].expiresAt)
  {
  }

  /** As many arrivals as there is room for, all at one moment. */
  lemma {:induction false} Fill(lim: Limits, l: Limiter, ip: Ip, now: Time, n: nat) returns (ms: seq<Move>)
    requires l.clock <= now && n <= Room(lim, l.redis, ip, now)
    ensures EnabledRun(lim, l, ms) && (forall m | m in ms :: m.at == now)
    ensures Admitted(lim, l, ms, ip) == n
    ensures Exec(lim, l, ms).clock <= now
    ensures Alive(l.redis, ip, now) ==>
              Alive(Exec(lim, l, ms).redis, ip, now) && Exec(lim, l, ms).redis[ip].expiresAt == l.redis[ip].expiresAt
    decreases n
  {
    if n == 0 {
      ms := [];
    } else {
      var id := FreshId(l.pending);
      var m := Move(now, Arrive(id, ip));
      ArrivalTakesRoom(lim, l, ip, now, id);
      hide Next, Room, Admits;
      var rest := Fill(lim, Next(lim, l, m), ip, now, n - 1);
      ms := [m] + rest;
      assert ms[1..] == rest;
    }
  }

  /** Everybody of the address who waits runs the remaining commands, all at one moment. */
  lemma {:induction false} Drain(lim: Limits, l: Limiter, ip: Ip, now: Time) returns (ms: seq<Move>)
    requires l.clock <= now
    ensures EnabledRun(lim, l, ms) && (forall m | m in ms :: m.at == now)
    ensures Admitted(lim, l, ms, ip) == 0 && Waiting(lim, Exec(lim, l, ms), ip) == {}
    ensures ms == [] ==> Waiting(lim, l, ip) == {}
    decreases |Waiting(lim, l, ip)|
  {
    if Waiting(lim, l, ip) == {} {
      ms := [];
    } else {
      var id :| id in Waiting(lim, l, ip);
      var m := Move(now, Continue(id));
      var l1 := Next(lim, l, m);
      StepMovesWaiting(lim, l, m, ip);
      if l.pending[id].MustAskTtl? {
        var rest := Drain(lim, l1, ip, now);
        ms := [m] + rest;
        assert ms[1..] == rest;
      } else {
        StepMovesWaiting(lim, l1, m, ip);
        assert Passes(lim, l1, m, ip);
        var rest := Drain(lim, Next(lim, l1, m), ip, now);
        ms := [m] + ([m] + rest);
        assert ms[1..] == [m] + rest && ([m] + rest)[1..] == rest;
      }
    }
  }

  /** Fill twice, then let everybody through. */
  lemma Crowd(lim: Limits, l: Limiter, ip: Ip, start: Time, end: Time, n: nat) returns (ms: seq<Move>)
    requires l.clock <= start <= end && n <= Room(lim, l.redis, ip, start)
    requires start < end ==> Alive(l.redis, ip, start) && l.redis[ip].expiresAt == Some(end)
    ensures EnabledRun(lim, l, ms) && Waiting(lim, Exec(lim, l, ms), ip) == {}
    ensures forall m | m in ms :: start <= m.at <= end
    ensures Admitted(lim, l, ms, ip) == n + if start < end then lim.Max() else 0
    ensures ms == [] ==> Waiting(lim, l, ip) == {}
  {
    var a := Fill(lim, l, ip, start, n);
    var l1 := Exec(lim, l, a);
    var b := [];
    if start < end {
      b := Fill(lim, l1, ip, end, lim.Max());
    }
    ClockStaysWithin(lim, l1, b, end);
    var c := Drain(lim, Exec(lim, l1, b), ip, end);
    RunsAppend(lim, l1, b, c, ip);
    RunsAppend(lim, l, a, b + c, ip);
    ms := a + (b + c);
  }

  lemma CrowdAllPasses(lim: Limits, l: Limiter, ms: seq<Move>, ip: Ip, start: Time, end: Time)
    requires lim.WindowMs() > 0 && end <= start + 1 && ms != [] && EnabledRun(lim, l, ms) && l.clock <= end
    requires (forall m | m in ms :: start <= m.at <= end) && Waiting(lim, Exec(lim, l, ms), ip) == {}
    ensures Passed(lim, l, ms, ip) == Admitted(lim, l, ms, ip) + |Waiting(lim, l, ip)|
    ensures Length(lim, l, ms) / lim.WindowMs() == 0
  {
    EveryAdmittedPasses(lim, l, ms, ip);
    ClockStaysWithin(lim, l, ms, end);
    assert ms[0] in ms;
    ClockOnlyAdvances(lim, Next(lim, l, ms[0]), ms[1..]);
    DivIs(Length(lim, l, ms), lim.WindowMs(), 0, Length(lim, l, ms));
  }

  lemma TooLittleSlack(lim: Limits, l: Limiter, ip: Ip) returns (ms: seq<Move>)
    requires lim.WindowMs() > 0 && |Waiting(lim, l, ip)| > Slack(lim, l, ip)
    ensures ms != [] && EnabledRun(lim, l, ms)
    ensures Passed(lim, l, ms, ip) > lim.Max() * (Length(lim, l, ms) / lim.WindowMs() + 2)
  {
    var now := l.clock;
    var start, end, n := now, now, Room(lim, l.redis, ip, now);
    if Alive(l.redis, ip, now) && l.redis[ip].expiresAt.Some? {
      end := l.redis[ip].expiresAt.value;
      start := end - 1;
      n := Room(lim, l.redis, ip, start);
    }
    ms := Crowd(lim, l, ip, start, end, n);
    CrowdAllPasses(lim, l, ms, ip, start, end);
  }

  predicate WithinBound(lim: Limits, l: Limiter, ms: seq<Move>, ip: Ip)
    requires lim.WindowMs() > 0
  {
    ms == [] || Passed(lim, l, ms, ip) <= lim.Max() * (Length(lim, l, ms) / lim.WindowMs() + 2)
  }

  /**
   Counted when they are let through, the requests of an address keep to the bound in every interval that begins
   now if and only if those already in flight fit into the slack.
   */
  lemma ThroughputIsBoundedExactly(lim: Limits, l: Limiter, ip: Ip)
    requires lim.WindowMs() > 0 && Guarded(l)
    ensures (forall ms | EnabledRun(lim, l, ms) :: WithinBound(lim, l, ms, ip))
            <==> |Waiting(lim, l, ip)| <= Slack(lim, l, ip)
  {
    hide Slack, Waiting, Passed, Exec;
    if |Waiting(lim, l, ip)| <= Slack(lim, l, ip) {
      forall ms | EnabledRun(lim, l, ms) ensures WithinBound(lim, l, ms, ip) {
        if ms != [] { EnoughSlack(lim, l, ms, ip, lim.WindowMs(), Length(lim, l, ms) / lim.WindowMs()); }
      }
    } else {
      var ms := TooLittleSlack(lim, l, ip);
      assert !WithinBound(lim, l, ms, ip);
    }
  }

  lemma Unfold(lim: Limits, l: Limiter, m: Move, rest: seq<Move>, ip: Ip)
    ensures EnabledRun(lim, l, [m] + rest) <==> Enabled(l, m) && EnabledRun(lim, Next(lim, l, m), rest)
    ensures Exec(lim, l, [m] + rest) == Exec(lim, Next(lim, l, m), rest)
    ensures Passed(lim, l, [m] + rest, ip)
            == (if Passes(lim, l, m, ip) then 1 else 0) + Passed(lim, Next(lim, l, m), rest, ip)
  {
    assert ([m] + rest)[1..] == rest;
  }

  /** After `n` requests of address 0 that came a second apart, each still to ask for the TTL. */
  ghost predicate SlowRequests(l: Limiter, n: nat) {
    && (n == 0 ==> l == Limiter(0, map[], map[]))
    && (n > 0 ==> l.clock == 1000 * (n - 1) && l.redis == map[0 := Counter(1, Some(1000 * n))])
    && (forall k :: k in l.pending <==> 0 <= k < n)
    && (forall k | 0 <= k < n :: l.pending[k] == MustAskTtl(0, 1))
  }

  lemma OneMoreSlowRequest(lim: Limits, l: Limiter, n: nat) returns (ms: seq<Move>)
    requires lim == Limits(1, 1) && SlowRequests(l, n)
    ensures EnabledRun(lim, l, ms) && SlowRequests(Exec(lim, l, ms), n + 1)
  {
    var arrive, expire := Move(1000 * n, Arrive(n, 0)), Move(1000 * n, Continue(n));
    Unfold(lim, Next(lim, l, arrive), expire, [], 0);
    Unfold(lim, l, arrive, [expire] + [], 0);
    ms := [arrive] + ([expire] + []);
  }

  lemma ThreeTtls(lim: Limits, l: Limiter) returns (ms: seq<Move>)
    requires lim == Limits(1, 1) && SlowRequests(l, 3)
    ensures ms != [] && EnabledRun(lim, l, ms) && Length(lim, l, ms) == 0 && Passed(lim, l, ms, 0) == 3
  {
    var a, b, c := Move(3000, Continue(0)), Move(3000, Continue(1)), Move(3000, Continue(2));
    var l1 := Next(lim, l, a);
    Unfold(lim, Next(lim, l1, b), c, [], 0);
    Unfold(lim, l1, b, [c] + [], 0);
    Unfold(lim, l, a, [b] + ([c] + []), 0);
    ms := [a] + ([b] + ([c] + []));
  }

  /** One request a second is allowed, and three that came a second apart are let through at one moment. */
  lemma ThreeAtOnce() returns (lim: Limits, l: Limiter, before: seq<Move>, ms: seq<Move>)
    ensures lim == Limits(1, 1) && l == Limiter(0, map[], map[])
    ensures EnabledRun(lim, l, before + ms) && ms != []
    ensures Length(lim, Exec(lim, l, before), ms) == 0
    ensures Passed(lim, Exec(lim, l, before), ms, 0) == 3 > lim.Max() * (0 / lim.WindowMs() + 2)
  {
    hide Next, Exec, EnabledRun, Passed, Admitted, Length;
    lim, l := Limits(1, 1), Limiter(0, map[], map[]);
    var a := OneMoreSlowRequest(lim, l, 0);
    var b := OneMoreSlowRequest(lim, Exec(lim, l, a), 1);
    RunsAppend(lim, l, a, b, 0);
    var c := OneMoreSlowRequest(lim, Exec(lim, l, a + b), 2);
    RunsAppend(lim, l, a + b, c, 0);
    before := a + b + c;
    ms := ThreeTtls(lim, Exec(lim, l, before));
    RunsAppend(lim, l, before, ms, 0);
  }
}
