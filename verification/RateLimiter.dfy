/** The fixed-window request counter: Redis commands as separate steps of any number of requests in flight. */
module RateLimiter {
  import opened Arithmetic
  import opened Model

  type Ip = nat

  datatype Limits = Limits(windowSeconds: int, maxRequests: int) {
    function WindowMs(): Time { windowSeconds * 1000 }
    function Max(): nat { if maxRequests < 0 then 0 else maxRequests }
  }

  /** The value at `ratelimit:<ip>`; a key made by INCR has no expiry until EXPIRE gives it one. */
  datatype Counter = Counter(count: nat, expiresAt: Option<Time>)
  type Redis = map<Ip, Counter>

  predicate Alive(r: Redis, ip: Ip, now: Time) {
    ip in r && (r[ip].expiresAt.Some? ==> now < r[ip].expiresAt.value)
  }

  function Count(r: Redis, ip: Ip, now: Time): nat {
    if Alive(r, ip, now) then r[ip].count else 0
  }

  /** INCR: a missing or expired key starts over at one. */
  function Incr(r: Redis, ip: Ip, now: Time): Redis {
    if Alive(r, ip, now) then r[ip := r[ip].(count := r[ip].count + 1)] else r[ip := Counter(1, None)]
  }

  /** EXPIRE. */
  function Expire(r: Redis, ip: Ip, window: Time, now: Time): Redis {
    if Alive(r, ip, now) then r[ip := r[ip].(expiresAt := Some(now + window))] else r
  }

  /** TTL: -2 without the key, -1 without an expiry, else the rounded seconds left. */
  function Ttl(r: Redis, ip: Ip, now: Time): int {
    if !Alive(r, ip, now) then -2
    else if r[ip].expiresAt.None? then -1
    else (r[ip].expiresAt.value - now + 500) / 1000
  }

  // ---------------------------------------------------------------- interleaved requests

  /** Where a request stands after its INCR. */
  datatype Pending = MustExpire(ip: Ip) | MustAskTtl(ip: Ip, count: nat)

  datatype Limiter = Limiter(clock: Time, redis: Redis, pending: map<nat, Pending>)

  /** A request arrives and runs INCR, or a request in flight runs its next command. */
  datatype Action = Arrive(id: nat, ip: Ip) | Continue(id: nat)
  datatype Move = Move(at: Time, action: Action)

  function Next(lim: Limits, l: Limiter, m: Move): Limiter {
    match m.action
    case Arrive(id, ip) =>
      var redis := Incr(l.redis, ip, m.at);
      var n := redis[ip].count;
      Limiter(m.at, redis, l.pending[id := if n == 1 then MustExpire(ip) else MustAskTtl(ip, n)])
    case Continue(id) =>
      if id !in l.pending then Limiter(m.at, l.redis, l.pending)
      else if l.pending[id].MustExpire? then
        var ip := l.pending[id].ip;
        Limiter(m.at, Expire(l.redis, ip, lim.WindowMs(), m.at), l.pending[id := MustAskTtl(ip, 1)])
      else Limiter(m.at, l.redis, l.pending - {id})
  }

  predicate Enabled(l: Limiter, m: Move) {
    l.clock <= m.at && (m.action.Arrive? ==> m.action.id !in l.pending)
  }

  function Exec(lim: Limits, l: Limiter, ms: seq<Move>): Limiter
    decreases |ms|
  {
    if ms == [] then l else Exec(lim, Next(lim, l, ms[0]), ms[1..])
  }

  predicate EnabledRun(lim: Limits, l: Limiter, ms: seq<Move>)
    decreases |ms|
  {
    ms == [] || (Enabled(l, ms[0]) && EnabledRun(lim, Next(lim, l, ms[0]), ms[1..]))
  }

  /**
   A request's fate is sealed by the number its INCR returned, and here it counts from then on. It goes on only
   when the TTL has been answered; `Throughput` counts it there.
   */
  predicate Admits(lim: Limits, l: Limiter, m: Move, ip: Ip) {
    m.action.Arrive? && m.action.ip == ip && Count(l.redis, ip, m.at) + 1 <= lim.maxRequests
  }

  function Admitted(lim: Limits, l: Limiter, ms: seq<Move>, ip: Ip): nat
    decreases |ms|
  {
    if ms == [] then 0
    else (if Admits(lim, l, ms[0], ip) then 1 else 0) + Admitted(lim, Next(lim, l, ms[0]), ms[1..], ip)
  }

  /** A request still to set an expiry guards a key that has none, and it is the only one for that key. */
  predicate Guarded(l: Limiter) {
    && (forall ip | ip in l.redis :: l.redis[ip].count >= 1)
    && (forall id | id in l.pending && l.pending[id].MustExpire? ::
          l.pending[id].ip in l.redis && l.redis[l.pending[id].ip].expiresAt.None?)
    && (forall i, j | i in l.pending && j in l.pending && l.pending[i].MustExpire? && l.pending[j].MustExpire?
                      && l.pending[i].ip == l.pending[j].ip :: i == j)
  }

  lemma StepKeepsGuarded(lim: Limits, l: Limiter, m: Move)
    requires Guarded(l) && Enabled(l, m)
    ensures Guarded(Next(lim, l, m))
  {
  }

  // ---------------------------------------------------------------- the bound

  /** How many lifetimes of a key can begin from `from` to `end`, when they begin a window apart. */
  function Starts(from: Time, end: Time, window: Time): nat
    requires window > 0
  {
    if from > end then 0 else (end - from) / window + 1
  }

  lemma StartsShift(from: Time, end: Time, window: Time)
    requires window > 0 && from <= end
    ensures Starts(from, end, window) == Starts(from + window, end, window) + 1
  {
    if from + window <= end {
      assert end - from == (end - (from + window)) + window;
      DivPlusOne(end - (from + window), window);
    } else {
      assert 0 <= end - from < window;
      DivIs(end - from, window, 0, end - from);
    }
  }

  lemma StartsMonotone(a: Time, b: Time, end: Time, window: Time)
    requires window > 0 && a <= b
    ensures Starts(b, end, window) <= Starts(a, end, window)
  {
    if b <= end { DivMonotone(end - b, end - a, window); }
  }

  /** When the next lifetime of the key can begin at the earliest. */
  function NextStart(lim: Limits, r: Redis, ip: Ip, now: Time): Time {
    if !Alive(r, ip, now) then now
    else if r[ip].expiresAt.Some? then r[ip].expiresAt.value
    else now + lim.WindowMs()
  }

  /** What this lifetime can still admit. */
  function Left(lim: Limits, r: Redis, ip: Ip, now: Time): nat {
    if !Alive(r, ip, now) || r[ip].count >= lim.Max() then 0 else lim.Max() - r[ip].count
  }

  function Budget(lim: Limits, r: Redis, ip: Ip, now: Time, end: Time): nat
    requires lim.WindowMs() > 0
  {
    Left(lim, r, ip, now) + lim.Max() * Starts(NextStart(lim, r, ip, now), end, lim.WindowMs())
  }

  lemma WaitingShrinksTheBudget(lim: Limits, r: Redis, ip: Ip, now: Time, later: Time, end: Time)
    requires lim.WindowMs() > 0 && now <= later
    ensures Budget(lim, r, ip, later, end) <= Budget(lim, r, ip, now, end)
  {
    var w := lim.WindowMs();
    StartsMonotone(NextStart(lim, r, ip, now), NextStart(lim, r, ip, later), end, w);
    MulMonotone(lim.Max(), Starts(NextStart(lim, r, ip, later), end, w), Starts(NextStart(lim, r, ip, now), end, w));
  }

  lemma {:induction false} StepPaysFromTheBudget(lim: Limits, l: Limiter, m: Move, ip: Ip, end: Time)
    requires lim.WindowMs() > 0 && Guarded(l) && Enabled(l, m) && m.at <= end
    ensures (if Admits(lim, l, m, ip) then 1 else 0) + Budget(lim, Next(lim, l, m).redis, ip, m.at, end)
         <= Budget(lim, l.redis, ip, l.clock, end)
  {
    WaitingShrinksTheBudget(lim, l.redis, ip, l.clock, m.at, end);
    var w, redis := lim.WindowMs(), l.redis;
    if m.action.Arrive? && m.action.ip == ip && !Alive(redis, ip, m.at) {
      StartsShift(m.at, end, w);
      var k := Starts(m.at + w, end, w);
      assert lim.Max() * (k + 1) == lim.Max() * k + lim.Max();
    }
  }

  lemma {:induction false} RunPaysFromTheBudget(lim: Limits, l: Limiter, ms: seq<Move>, ip: Ip, end: Time)
    requires lim.WindowMs() > 0 && Guarded(l) && EnabledRun(lim, l, ms) && Exec(lim, l, ms).clock <= end
    ensures Admitted(lim, l, ms, ip) <= Budget(lim, l.redis, ip, l.clock, end)
    decreases |ms|
  {
    if ms == [] {
    } else {
      var l' := Next(lim, l, ms[0]);
      ClockOnlyAdvances(lim, l', ms[1..]);
      StepPaysFromTheBudget(lim, l, ms[0], ip, end);
      StepKeepsGuarded(lim, l, ms[0]);
      RunPaysFromTheBudget(lim, l', ms[1..], ip, end);
    }
  }

  lemma {:induction false} ClockOnlyAdvances(lim: Limits, l: Limiter, ms: seq<Move>)
    requires EnabledRun(lim, l, ms)
    ensures l.clock <= Exec(lim, l, ms).clock
    decreases |ms|
  {
    if ms == [] {
    } else {
      ClockOnlyAdvances(lim, Next(lim, l, ms[0]), ms[1..]);
    }
  }

  lemma FirstMoveSetsTheClock(lim: Limits, l: Limiter, m: Move, start: Time)
    ensures Next(lim, l.(clock := start), m) == Next(lim, l, m)
  {
  }

  /**
   However the commands of concurrent requests interleave, and whatever went before, the requests of one
   address whose INCR stays within the limit between the first and the last move of a run number at most the
   maximum for each full window in between, plus twice the maximum.
   */
  lemma RateBound(lim: Limits, l: Limiter, ms: seq<Move>, ip: Ip, w: Time, t: Time)
    requires w == lim.windowSeconds * 1000 > 0 && Guarded(l) && ms != [] && EnabledRun(lim, l, ms)
    requires t == Exec(lim, l, ms).clock - ms[0].at
    ensures Admitted(lim, l, ms, ip) <= lim.Max() * (t / w + 2)
  {
    hide Next;
    var end, start := Exec(lim, l, ms).clock, ms[0].at;
    var next := NextStart(lim, l.redis, ip, start);
    FirstMoveSetsTheClock(lim, l, ms[0], start);
    RunPaysFromTheBudget(lim, l.(clock := start), ms, ip, end);
    ClockOnlyAdvances(lim, l.(clock := start), ms);
    StartsMonotone(start, next, end, w);
    MulMonotone(lim.Max(), Starts(next, end, w), t / w + 1);
    assert lim.Max() * (t / w + 2) == lim.Max() * (t / w + 1) + lim.Max();
  }

  // ---------------------------------------------------------------- one lifetime of a key

  /** No request of this address finds the key gone: the run stays within one lifetime. */
  predicate OneLifetime(lim: Limits, l: Limiter, ms: seq<Move>, ip: Ip)
    decreases |ms|
  {
    ms == [] || ((ms[0].action.Arrive? && ms[0].action.ip == ip ==> Alive(l.redis, ip, ms[0].at))
                 && OneLifetime(lim, Next(lim, l, ms[0]), ms[1..], ip))
  }

  lemma {:induction false} LifetimeAdmitsWhatIsLeft(lim: Limits, l: Limiter, ms: seq<Move>, ip: Ip)
    requires EnabledRun(lim, l, ms) && OneLifetime(lim, l, ms, ip)
    ensures Admitted(lim, l, ms, ip) <= Left(lim, l.redis, ip, l.clock)
    decreases |ms|
  {
    if ms == [] {
    } else {
      LifetimeAdmitsWhatIsLeft(lim, Next(lim, l, ms[0]), ms[1..], ip);
    }
  }

  /** The request that creates the key and all that count on the same key admit at most the maximum together. */
  lemma LifetimeBound(lim: Limits, l: Limiter, ms: seq<Move>, ip: Ip)
    requires ms != [] && EnabledRun(lim, l, ms)
    requires OneLifetime(lim, Next(lim, l, ms[0]), ms[1..], ip)
    ensures Admitted(lim, l, ms, ip) <= lim.Max()
  {
    LifetimeAdmitsWhatIsLeft(lim, Next(lim, l, ms[0]), ms[1..], ip);
  }

  /**
   When the request that owes the EXPIRE never runs it, the key never ends: the address gets what the
   lifetime has left and is refused from then on, however long the run.
   */
  lemma {:induction false} LostExpireBlocks(lim: Limits, l: Limiter, ms: seq<Move>, id: nat)
    requires Guarded(l) && EnabledRun(lim, l, ms) && id in l.pending && l.pending[id].MustExpire?
    requires forall m | m in ms :: m.action != Continue(id)
    ensures OneLifetime(lim, l, ms, l.pending[id].ip)
    ensures Admitted(lim, l, ms, l.pending[id].ip) <= Left(lim, l.redis, l.pending[id].ip, l.clock)
    decreases |ms|
  {
    if ms == [] {
    } else {
      var l' := Next(lim, l, ms[0]);
      assert ms[0] in ms;
      StepKeepsGuarded(lim, l, ms[0]);
      assert id in l'.pending && l'.pending[id] == l.pending[id];
      LostExpireBlocks(lim, l', ms[1..], id);
      LifetimeAdmitsWhatIsLeft(lim, l, ms, l.pending[id].ip);
    }
  }

  ghost predicate OwesExpire(l: Limiter, id: nat, ip: Ip) {
    id in l.pending && l.pending[id] == MustExpire(ip)
  }

  /** For every key without an expiry some request in flight still owes the EXPIRE. */
  ghost predicate Owed(l: Limiter) {
    forall ip | ip in l.redis && l.redis[ip].expiresAt.None? :: exists id :: OwesExpire(l, id, ip)
  }

  lemma {:induction false} StepKeepsOwed(lim: Limits, l: Limiter, m: Move)
    requires Owed(l) && Enabled(l, m)
    ensures Owed(Next(lim, l, m))
  {
    var l' := Next(lim, l, m);
    forall ip | ip in l'.redis && l'.redis[ip].expiresAt.None? ensures exists id :: OwesExpire(l', id, ip) {
      if ip in l.redis && l.redis[ip].expiresAt.None? {
        var id :| OwesExpire(l, id, ip);
        assert OwesExpire(l', id, ip);
      } else {
        assert OwesExpire(l', m.action.id, ip);
      }
    }
  }

  lemma {:induction false} RunKeepsOwed(lim: Limits, l: Limiter, ms: seq<Move>)
    requires Owed(l) && EnabledRun(lim, l, ms)
    ensures Owed(Exec(lim, l, ms))
    decreases |ms|
  {
    if ms == [] {
    } else {
      StepKeepsOwed(lim, l, ms[0]);
      RunKeepsOwed(lim, Next(lim, l, ms[0]), ms[1..]);
    }
  }

  lemma {:induction false} RunKeepsGuarded(lim: Limits, l: Limiter, ms: seq<Move>)
    requires Guarded(l) && EnabledRun(lim, l, ms)
    ensures Guarded(Exec(lim, l, ms))
    decreases |ms|
  {
    if ms == [] {
    } else {
      StepKeepsGuarded(lim, l, ms[0]);
      RunKeepsGuarded(lim, Next(lim, l, ms[0]), ms[1..]);
    }
  }

  /**
   In every state reached from the empty Redis the key of an address is without an end exactly while one of the
   requests of that very address still owes the EXPIRE.
   */
  lemma EveryKeyEndsUnlessOwed(lim: Limits, start: Time, ms: seq<Move>, ip: Ip)
    requires EnabledRun(lim, Limiter(start, map[], map[]), ms)
    ensures var l := Exec(lim, Limiter(start, map[], map[]), ms);
            && (ip in l.redis && l.redis[ip].expiresAt.None? <==> exists id :: OwesExpire(l, id, ip))
            && forall i, j | OwesExpire(l, i, ip) && OwesExpire(l, j, ip) :: i == j
  {
    RunKeepsOwed(lim, Limiter(start, map[], map[]), ms);
    RunKeepsGuarded(lim, Limiter(start, map[], map[]), ms);
  }

  // ---------------------------------------------------------------- one request served without interruption

  /** The rate limit headers, and whether the request goes on. */
  datatype Verdict = Verdict(allowed: bool, limit: int, remaining: int, reset: int)

  /** What a request leaves behind that no other comes between: INCR, and EXPIRE on the first hit. */
  function Handled(lim: Limits, r: Redis, ip: Ip, now: Time): Redis {
    var r1 := Incr(r, ip, now);
    if r1[ip].count == 1 then Expire(r1, ip, lim.WindowMs(), now) else r1
  }

  /** Every key has an expiry no further than a window away: what undisturbed requests leave behind. */
  predicate Settled(lim: Limits, r: Redis, now: Time) {
    forall ip | ip in r :: r[ip].count >= 1 && r[ip].expiresAt.Some? && r[ip].expiresAt.value <= now + lim.WindowMs()
  }

  class RedisRateLimiter {
    const limits: Limits
    var redis: Redis

    constructor (limits: Limits)
      ensures this.limits == limits && redis == map[]
    {
      this.limits := limits;
      redis := map[];
    }

    /** INCR, then EXPIRE on the first hit, then TTL. */
    method Handle(ip: Ip, now: Time) returns (v: Verdict)
      modifies this`redis
      ensures redis == Handled(limits, old(redis), ip, now)
      ensures ip in redis && redis == old(redis)[ip := redis[ip]]
      ensures redis[ip].count == Count(old(redis), ip, now) + 1
      ensures redis[ip].expiresAt ==
              if Count(old(redis), ip, now) > 0 then old(redis[ip].expiresAt)
              else Some(now + limits.windowSeconds * 1000)
      ensures v.allowed <==> redis[ip].count <= limits.maxRequests
      ensures v.limit == limits.maxRequests && v.remaining >= 0
      ensures if v.allowed then v.remaining == v.limit - redis[ip].count else v.remaining == 0
      ensures match redis[ip].expiresAt
              case None => v.reset == -1
              case Some(end) => if now < end then -500 < v.reset * 1000 - (end - now) <= 500 else v.reset == -2
      ensures limits.WindowMs() > 0 && Settled(limits, old(redis), now) ==>
                Settled(limits, redis, now) && 0 <= v.reset <= limits.windowSeconds
    {
      redis := Incr(redis, ip, now);
      var count := redis[ip].count;
      if count == 1 {
        redis := Expire(redis, ip, limits.WindowMs(), now);
      }
      var ttl := Ttl(redis, ip, now);
      var left := limits.maxRequests - count;
      v := Verdict(!(count > limits.maxRequests), limits.maxRequests, if left > 0 then left else 0, ttl);
    }
  }
}
