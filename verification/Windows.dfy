/** The rate limiter's verdicts on requests that do not overlap, told from their times of arrival alone. */
module Windows {
  import opened Model
  import opened RateLimiter

  datatype Hit = Hit(ip: Ip, at: Time)

  /** What the first `n` hits leave in Redis. */
  function After(lim: Limits, hs: seq<Hit>, n: nat): Redis
    requires n <= |hs|
  {
    if n == 0 then map[] else Handled(lim, After(lim, hs, n - 1), hs[n - 1].ip, hs[n - 1].at)
  }

  predicate InOrder(hs: seq<Hit>) {
    forall i, j | 0 <= i <= j < |hs| :: hs[i].at <= hs[j].at
  }

  /** Hit `n` begins a window: every window that its address began before is over. */
  predicate Opens(lim: Limits, hs: seq<Hit>, n: nat)
    requires n < |hs|
    decreases n
  {
    forall m: nat | m < n && hs[m].ip == hs[n].ip && Opens(lim, hs, m) ::
      hs[m].at + lim.windowSeconds * 1000 <= hs[n].at
  }

  /** The last of the first `n` hits that began a window of this address. */
  function Opener(lim: Limits, hs: seq<Hit>, ip: Ip, n: nat): (m: Option<nat>)
    requires n <= |hs|
    ensures m.Some? ==> m.value < n && hs[m.value].ip == ip && Opens(lim, hs, m.value)
    ensures forall k: nat | k < n && hs[k].ip == ip && Opens(lim, hs, k) :: m.Some? && k <= m.value
  {
    if n == 0 then None
    else if hs[n - 1].ip == ip && Opens(lim, hs, n - 1) then Some(n - 1)
    else Opener(lim, hs, ip, n - 1)
  }

  /** How many of the hits from `from` up to `end` are of this address. */
  function Times(hs: seq<Hit>, ip: Ip, from: nat, end: nat): nat
    requires end <= |hs|
  {
    if end <= from then 0 else Times(hs, ip, from, end - 1) + if hs[end - 1].ip == ip then 1 else 0
  }

  lemma {:induction false} TimesCountsIts(hs: seq<Hit>, ip: Ip, from: nat, end: nat)
    requires from < end <= |hs| && hs[from].ip == ip
    ensures Times(hs, ip, from, end) >= 1
    decreases end
  {
    if end > from + 1 { TimesCountsIts(hs, ip, from, end - 1); }
  }

  /** A hit begins a window exactly when the last one that its address began is over. */
  lemma OpensAfterTheLast(lim: Limits, hs: seq<Hit>, n: nat)
    requires n < |hs| && InOrder(hs)
    ensures var m := Opener(lim, hs, hs[n].ip, n);
            Opens(lim, hs, n) <==> m.Some? ==> hs[m.value].at + lim.WindowMs() <= hs[n].at
  {
  }

  lemma HandledMoves(lim: Limits, r: Redis, hit: Hit, ip: Ip)
    requires ip in r ==> r[ip].count >= 1
    ensures var r' := Handled(lim, r, hit.ip, hit.at);
            if ip != hit.ip then (ip in r' <==> ip in r) && (ip in r ==> r'[ip] == r[ip])
            else ip in r' && r'[ip] == if Alive(r, ip, hit.at) then r[ip].(count := r[ip].count + 1)
                                       else Counter(1, Some(hit.at + lim.WindowMs()))
  {
  }

  /** The key of an address holds the hits since its last window began, and ends when that window does. */
  ghost predicate AsTold(lim: Limits, hs: seq<Hit>, n: nat, ip: Ip)
    requires n <= |hs|
  {
    var r := After(lim, hs, n);
    match Opener(lim, hs, ip, n)
    case None => ip !in r
    case Some(m) => ip in r && r[ip] == Counter(Times(hs, ip, m, n), Some(hs[m].at + lim.windowSeconds * 1000))
  }

  lemma {:induction false} HitKeepsTold(lim: Limits, hs: seq<Hit>, n: nat, ip: Ip)
    requires n < |hs| && InOrder(hs) && AsTold(lim, hs, n, ip)
    ensures AsTold(lim, hs, n + 1, ip)
  {
    var m := Opener(lim, hs, ip, n);
    if m.Some? { TimesCountsIts(hs, ip, m.value, n); }
    HandledMoves(lim, After(lim, hs, n), hs[n], ip);
    OpensAfterTheLast(lim, hs, n);
    hide Handled, Opens;
    assert After(lim, hs, n + 1) == Handled(lim, After(lim, hs, n), hs[n].ip, hs[n].at);
    if hs[n].ip != ip {
      assert Opener(lim, hs, ip, n + 1) == m;
    } else if Opens(lim, hs, n) {
      assert Opener(lim, hs, ip, n + 1) == Some(n);
      assert Times(hs, ip, n, n) == 0;
    } else {
      assert Opener(lim, hs, ip, n + 1) == m;
    }
  }

  lemma {:induction false} KeysAreAsTold(lim: Limits, hs: seq<Hit>, n: nat, ip: Ip)
    requires n <= |hs| && InOrder(hs)
    ensures AsTold(lim, hs, n, ip)
    decreases n
  {
    if n == 0 {
    } else {
      hide AsTold;
      KeysAreAsTold(lim, hs, n - 1, ip);
      HitKeepsTold(lim, hs, n - 1, ip);
    }
  }

  /** The verdict on hit `n`, as `Handle` gives it. */
  predicate Allowed(lim: Limits, hs: seq<Hit>, n: nat)
    requires n < |hs|
  {
    var r, ip := After(lim, hs, n + 1), hs[n].ip;
    ip in r && r[ip].count <= lim.maxRequests
  }

  /** A window lets through exactly the first `maxRequests` hits that its address makes in it. */
  lemma AllowedExactly(lim: Limits, hs: seq<Hit>, n: nat)
    requires n < |hs| && InOrder(hs)
    ensures Allowed(lim, hs, n) <==>
              exists m: nat | m <= n && hs[m].ip == hs[n].ip && Opens(lim, hs, m) ::
                && (m == n || hs[n].at < hs[m].at + lim.windowSeconds * 1000)
                && Times(hs, hs[n].ip, m, n + 1) <= lim.maxRequests
  {
    KeysAreAsTold(lim, hs, n + 1, hs[n].ip);
  }
}
