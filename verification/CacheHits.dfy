/** When exactly a profile, an admin view or a page is served from Redis, and with what, over whole-request runs. */
module CacheHits {
  import opened Model
  import opened Requests
  import opened Chronicle
  import opened Outcomes
  import Caching
  import Purges

  /** What an event does to one cache entry. */
  datatype Effect = Fills | Drops | Keeps

  /** The last event before `n` that filled the entry, unless one dropped it since. */
  function LastFill(effects: nat -> Effect, n: nat): Option<nat> {
    if n == 0 then None
    else match effects(n - 1)
         case Fills => Some(n - 1)
         case Drops => None
         case Keeps => LastFill(effects, n - 1)
  }

  /** A `getMe` that went to the database fills; the owner's edits, the purges and a flush drop. */
  function MeEffect(cfg: Config, s: State, e: Event, u: UserId): Effect {
    var outcome := Serve(cfg, s, e).outcome;
    if e.call == GetMe(u) && outcome.Me? && !outcome.cached then Fills
    else if Edits(cfg, s, e, u) || Purges.PurgeTarget(cfg, Arrive(s, e), e.call) == Some(u) || e.call.FlushCache?
    then Drops else Keeps
  }

  /** A `getUserById` that went to the database fills; an admin's write to the account and a flush drop. */
  function AdminEffect(cfg: Config, s: State, e: Event, u: UserId): Effect {
    var outcome := Serve(cfg, s, e).outcome;
    if e.call == GetUserById(u) && outcome.AdminUser? && !outcome.cached then Fills
    else if (Caching.AdminWrites(cfg, Arrive(s, e), e.call) && e.call.target == u) || e.call.FlushCache?
    then Drops else Keeps
  }

  /** A listing that went to the database fills its page; an admin's write to any account and a flush drop all. */
  function PageEffect(cfg: Config, s: State, e: Event, k: PageKey): Effect {
    var outcome := Serve(cfg, s, e).outcome;
    if e.call == GetAllUsers(k.page, k.limit) && outcome.UserPage? && !outcome.cached then Fills
    else if Caching.AdminWrites(cfg, Arrive(s, e), e.call) || e.call.FlushCache?
    then Drops else Keeps
  }

  function Entry<K, V>(m: map<K, Cached<V>>, k: K): Option<Cached<V>> {
    if k in m then Some(m[k]) else None
  }

  lemma MeEntryMoves(cfg: Config, s: State, e: Event, u: UserId)
    ensures Entry(Step(cfg, s, e).cache.me, u) ==
            match MeEffect(cfg, s, e, u)
            case Fills => Some(Cached(Serve(cfg, s, e).outcome.me, e.at + CACHE_TTL))
            case Drops => None
            case Keeps => Entry(s.cache.me, u)
  {
  }

  lemma AdminEntryMoves(cfg: Config, s: State, e: Event, u: UserId)
    ensures Entry(Step(cfg, s, e).cache.admin, u) ==
            match AdminEffect(cfg, s, e, u)
            case Fills => Some(Cached(Serve(cfg, s, e).outcome.admin, e.at + CACHE_TTL))
            case Drops => None
            case Keeps => Entry(s.cache.admin, u)
  {
  }

  lemma PageEntryMoves(cfg: Config, s: State, e: Event, k: PageKey)
    ensures Entry(Step(cfg, s, e).cache.pages, k) ==
            match PageEffect(cfg, s, e, k)
            case Fills => Some(Cached(Serve(cfg, s, e).outcome.page, e.at + CACHE_TTL))
            case Drops => None
            case Keeps => Entry(s.cache.pages, k)
  {
  }

  // ---------------------------------------------------------------- over runs

  function MeEffects(cfg: Config, es: seq<Event>, u: UserId): nat -> Effect {
    (i: nat) => if i < |es| then MeEffect(cfg, StateAt(cfg, es, i), es[i], u) else Keeps
  }

  function AdminEffects(cfg: Config, es: seq<Event>, u: UserId): nat -> Effect {
    (i: nat) => if i < |es| then AdminEffect(cfg, StateAt(cfg, es, i), es[i], u) else Keeps
  }

  function PageEffects(cfg: Config, es: seq<Event>, k: PageKey): nat -> Effect {
    (i: nat) => if i < |es| then PageEffect(cfg, StateAt(cfg, es, i), es[i], k) else Keeps
  }

  ghost predicate MeFilled(cfg: Config, es: seq<Event>, n: nat, u: UserId)
    requires n <= |es|
  {
    var last, entry := LastFill(MeEffects(cfg, es, u), n), Entry(StateAt(cfg, es, n).cache.me, u);
    match last
    case None => entry.None?
    case Some(j) =>
      j < n && Answer(cfg, es, j).Me? && entry == Some(Cached(Answer(cfg, es, j).me, es[j].at + CACHE_TTL))
  }

  ghost predicate AdminFilled(cfg: Config, es: seq<Event>, n: nat, u: UserId)
    requires n <= |es|
  {
    var last, entry := LastFill(AdminEffects(cfg, es, u), n), Entry(StateAt(cfg, es, n).cache.admin, u);
    match last
    case None => entry.None?
    case Some(j) =>
      j < n && Answer(cfg, es, j).AdminUser? && entry == Some(Cached(Answer(cfg, es, j).admin, es[j].at + CACHE_TTL))
  }

  ghost predicate PageFilled(cfg: Config, es: seq<Event>, n: nat, k: PageKey)
    requires n <= |es|
  {
    var last, entry := LastFill(PageEffects(cfg, es, k), n), Entry(StateAt(cfg, es, n).cache.pages, k);
    match last
    case None => entry.None?
    case Some(j) =>
      j < n && Answer(cfg, es, j).UserPage? && entry == Some(Cached(Answer(cfg, es, j).page, es[j].at + CACHE_TTL))
  }

  lemma {:induction false} MeEntriesAreLastFills(cfg: Config, es: seq<Event>, n: nat, u: UserId)
    requires n <= |es|
    ensures MeFilled(cfg, es, n, u)
    decreases n
  {
    hide Apply;
    if n == 0 {
    } else {
      MeEntriesAreLastFills(cfg, es, n - 1, u);
      StateAtNext(cfg, es, n - 1);
      MeEntryMoves(cfg, StateAt(cfg, es, n - 1), es[n - 1], u);
    }
  }

  lemma {:induction false} AdminEntriesAreLastFills(cfg: Config, es: seq<Event>, n: nat, u: UserId)
    requires n <= |es|
    ensures AdminFilled(cfg, es, n, u)
    decreases n
  {
    hide Apply;
    if n == 0 {
    } else {
      AdminEntriesAreLastFills(cfg, es, n - 1, u);
      StateAtNext(cfg, es, n - 1);
      AdminEntryMoves(cfg, StateAt(cfg, es, n - 1), es[n - 1], u);
    }
  }

  lemma {:induction false} PageEntriesAreLastFills(cfg: Config, es: seq<Event>, n: nat, k: PageKey)
    requires n <= |es|
    ensures PageFilled(cfg, es, n, k)
    decreases n
  {
    hide Apply;
    if n == 0 {
    } else {
      PageEntriesAreLastFills(cfg, es, n - 1, k);
      StateAtNext(cfg, es, n - 1);
      PageEntryMoves(cfg, StateAt(cfg, es, n - 1), es[n - 1], k);
    }
  }

  /**
   `getMe` is served from the cache if and only if an earlier one that went to the database is less than 300 seconds
   ago, with no edit by the owner, no purge of the user and no flush in between; and then with that one's answer.
   */
  lemma ProfileHitsExactly(cfg: Config, es: seq<Event>, n: nat, u: UserId)
    requires n < |es| && es[n].call == GetMe(u)
    ensures var o, last := Answer(cfg, es, n), LastFill(MeEffects(cfg, es, u), n);
            && (last.Some? ==> last.value < n)
            && (o.Me? && o.cached <==> last.Some? && es[n].at < es[last.value].at + 300 * 1000)
            && (o.Me? && o.cached ==> Answer(cfg, es, last.value).Me? && o.me == Answer(cfg, es, last.value).me)
  {
    hide LastFill, StateAt;
    MeEntriesAreLastFills(cfg, es, n, u);
  }

  /** The same of `getUserById`, where an admin's write to the account and a flush come in between. */
  lemma AdminViewHitsExactly(cfg: Config, es: seq<Event>, n: nat, u: UserId)
    requires n < |es| && es[n].call == GetUserById(u)
    ensures var o, last := Answer(cfg, es, n), LastFill(AdminEffects(cfg, es, u), n);
            && (last.Some? ==> last.value < n)
            && (o.AdminUser? && o.cached <==> last.Some? && es[n].at < es[last.value].at + 300 * 1000)
            && (o.AdminUser? && o.cached ==>
                  Answer(cfg, es, last.value).AdminUser? && o.admin == Answer(cfg, es, last.value).admin)
  {
    hide LastFill, StateAt;
    AdminEntriesAreLastFills(cfg, es, n, u);
  }

  /** The same of one page of `getAllUsers`, where an admin's write to any account and a flush come in between. */
  lemma PageHitsExactly(cfg: Config, es: seq<Event>, n: nat, k: PageKey)
    requires n < |es| && es[n].call == GetAllUsers(k.page, k.limit)
    ensures var o, last := Answer(cfg, es, n), LastFill(PageEffects(cfg, es, k), n);
            && o.UserPage?
            && (last.Some? ==> last.value < n)
            && (o.cached <==> last.Some? && es[n].at < es[last.value].at + 300 * 1000)
            && (o.cached ==> Answer(cfg, es, last.value).UserPage? && o.page == Answer(cfg, es, last.value).page)
  {
    hide LastFill, StateAt;
    PageEntriesAreLastFills(cfg, es, n, k);
  }
}
