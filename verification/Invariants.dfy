/** Everything that holds in every state that whole requests reach from the empty store. */
module Invariants {
  import opened Model
  import opened Requests
  import opened Interleaving
  import opened Lifecycle
  import Lockout
  import Verification
  import Resets
  import Caching
  import Independence

  ghost predicate Sound(cfg: Config, s: State) {
    && Independence.World(cfg, s)
    && Lockout.LockedExactlyAtTheLimit(cfg, s)
    && Verification.OneTokenWhileUnverified(s)
    && Resets.OneUnusedReset(s)
    && DeletedHoldNothing(s)
    && Caching.CacheExact(s)
  }

  lemma EmptyIsSound(cfg: Config)
    ensures Sound(cfg, EMPTY)
  {
  }

  /** Time passing and draws being used up alone disturb nothing. */
  lemma ArriveKeepsSound(cfg: Config, s: State, e: Event)
    requires Sound(cfg, s) && Possible(s, e)
    ensures Sound(cfg, Arrive(s, e))
  {
    DropKeepsCoherent(cfg, Conc(s, map[]), Conc(Arrive(s, e), map[]), {});
    Verification.Carry(s, Arrive(s, e));
    assert forall h, u :: Resets.Unused(Arrive(s, e), h, u) == Resets.Unused(s, h, u);
  }

  lemma StepKeepsSound(cfg: Config, s: State, e: Event)
    requires Sound(cfg, s) && Possible(s, e)
    ensures Sound(cfg, Step(cfg, s, e))
  {
    Independence.StepKeepsWorld(cfg, s, e);
    Lockout.StepKeepsLocks(cfg, s, e);
    Verification.StepKeepsOneToken(cfg, s, e);
    Resets.StepKeepsOneUnused(cfg, s, e);
    StepKeepsDeleted(cfg, s, e);
    Caching.StepKeepsCacheExact(cfg, s, e);
  }

  lemma {:induction false} RunKeepsSound(cfg: Config, s: State, es: seq<Event>)
    requires Sound(cfg, s) && PossibleRun(cfg, s, es)
    ensures Sound(cfg, Run(cfg, s, es))
    decreases |es|
  {
    if es == [] {
    } else {
      StepKeepsSound(cfg, s, es[0]);
      RunKeepsSound(cfg, Step(cfg, s, es[0]), es[1..]);
    }
  }

  /** The state after any possible run from the empty store satisfies every invariant at once. */
  lemma ReachableStatesAreSound(cfg: Config, es: seq<Event>)
    requires PossibleRun(cfg, EMPTY, es)
    ensures Sound(cfg, Run(cfg, EMPTY, es))
  {
    EmptyIsSound(cfg);
    RunKeepsSound(cfg, EMPTY, es);
  }
}
