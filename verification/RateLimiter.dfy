/** The limiter's shared buckets, updated in place, one critical section at a time. */
module RateLimiter {
  import opened RateLimitModel
  import opened RateLimitRefills
  import opened RateLimitThreads

  class TokenBucket {
    ghost const key: string
    var tokens: int
    var lastRefill: int

    constructor (tokens: int, lastRefill: int, ghost key: string)
      ensures View() == Bucket(tokens, lastRefill) && this.key == key
    {
      this.tokens, this.lastRefill, this.key := tokens, lastRefill, key;
    }

    ghost function View(): Bucket
      reads this
    {
      Bucket(tokens, lastRefill)
    }

    /** The section under the bucket's own lock. */
    method TakeToken(config: Config, now: int) returns (taken: bool)
      modifies this
      ensures (View(), taken) == Take(config, old(View()), now)
      ensures forall earned :: Earns(config, now - old(lastRefill), earned) ==>
        IsDraw(config, old(View()), now, earned, View(), taken)
    {
      forall earned | Earns(config, now - lastRefill, earned)
        ensures IsDraw(config, View(), now, earned, Take(config, View(), now).0, Take(config, View(), now).1)
      {
        TakeIsDraw(config, View(), now, earned);
      }
      var tokensToAdd := TokensToAdd(config, now - lastRefill);
      if tokensToAdd > 0 {
        tokens := tokens + tokensToAdd;
        if tokens > config.burstSize {
          tokens := config.burstSize;
        }
        lastRefill := now;
      }
      if tokens > 0 {
        tokens := tokens - 1;
        return true;
      }
      return false;
    }
  }

  /** All buckets ever created are different objects, and the state describes each of them. */
  ghost predicate Describes(cells: seq<Cell>, all: seq<TokenBucket>)
    reads all
  {
    && |all| == |cells|
    && (forall i, j :: 0 <= i < j < |all| ==> all[i] != all[j])
    && forall i :: 0 <= i < |all| ==> cells[i] == Cell(all[i].key, all[i].View())
  }

  /** The state with a full bucket for a new key. */
  function WithBucket(cfg: Config, s: Limiter, key: string, now: int): Limiter {
    Limiter(s.cells + [Cell(key, Bucket(cfg.burstSize, now))], s.names[key := |s.cells|], s.held)
  }

  lemma LookupPerformed(cfg: Config, s: Limiter, thread: nat, key: string, now: int)
    requires Coherent(s)
    ensures var s' := if key in s.names then s else WithBucket(cfg, s, key, now);
      Perform(cfg, s, Lookup(thread, key, now), true).0 == s'.(held := s'.held[thread := s'.names[key]])
  {
  }

  lemma DescribesOneMore(cells: seq<Cell>, all: seq<TokenBucket>, b: TokenBucket)
    requires Describes(cells, all) && b !in all
    ensures Describes(cells + [Cell(b.key, b.View())], all + [b])
  {
  }

  class RateLimiter {
    const config: Config
    var buckets: map<string, TokenBucket>
    ghost var state: Limiter
    ghost var all: seq<TokenBucket>

    ghost predicate Valid()
      reads this, all
    {
      && Coherent(state) && Describes(state.cells, all)
      && buckets.Keys == state.names.Keys
      && forall k :: k in buckets ==> buckets[k] == all[state.names[k]]
    }

    constructor (config: Config)
      ensures Valid() && state == NO_BUCKETS && all == [] && this.config == config
    {
      this.config, buckets, state, all := config, map[], NO_BUCKETS, [];
    }

    method AddBucket(key: string, now: int) returns (b: TokenBucket)
      requires Valid() && key !in buckets
      modifies this
      ensures Valid() && fresh(b) && b.View() == Bucket(config.burstSize, now)
      ensures all == old(all) + [b] && buckets == old(buckets)[key := b]
      ensures state == WithBucket(config, old(state), key, now)
    {
      b := new TokenBucket(config.burstSize, now, key);
      DescribesOneMore(state.cells, all, b);
      hide Describes;
      buckets, all, state := buckets[key := b], all + [b], WithBucket(config, state, key, now);
    }

    /** The section under the limiter's lock: the bucket of the key, created full when it is missing. */
    method Lookup(ghost thread: nat, key: string, now: int) returns (b: TokenBucket)
      requires Valid()
      modifies this
      ensures Valid() && old(all) <= all && forall i :: |old(all)| <= i < |all| ==> fresh(all[i])
      ensures state == Perform(config, old(state), Action.Lookup(thread, key, now), true).0
      ensures thread in state.held && all[state.held[thread]] == b && buckets == old(buckets)[key := b]
      ensures key in old(buckets) ==> b == old(buckets)[key]
      ensures key !in old(buckets) ==> fresh(b) && b.View() == Bucket(config.burstSize, now)
    {
      LookupPerformed(config, state, thread, key, now);
      hide Perform, Describes;
      if key in buckets {
        b := buckets[key];
      } else {
        b := AddBucket(key, now);
      }
      state := state.(held := state.held[thread := state.names[key]]);
    }

    /** The draw from the bucket that the thread holds, whether or not that is still in the map. */
    method Draw(ghost thread: nat, b: TokenBucket, now: int) returns (allowed: bool)
      requires Valid() && thread in state.held && all[state.held[thread]] == b
      modifies this`state, b
      ensures Valid()
      ensures (state, allowed) == Perform(config, old(state), Action.Draw(thread, now), true)
    {
      hide Take;
      ghost var id := state.held[thread];
      assert forall i :: 0 <= i < |all| && i != id ==> all[i] != b;
      allowed := b.TakeToken(config, now);
      state := Perform(config, state, Action.Draw(thread, now), true).0;
    }

    /** Both sections, with nothing in between. */
    method Allow(ghost thread: nat, key: string, lookup: int, now: int) returns (allowed: bool)
      requires Valid() && thread !in state.held
      modifies this, all
      ensures Valid() && state.held == old(state.held)
      ensures (Contents(state), allowed) == RateLimitModel.Allow(config, old(Contents(state)), key, lookup, now)
    {
      hide Perform, RateLimitModel.Allow, Contents;
      WholeRequest(config, state, thread, key, lookup, now);
      var b := Lookup(thread, key, lookup);
      allowed := Draw(thread, b, now);
    }

    /** The cleanup's look at one bucket. */
    method SweepKey(key: string, now: int)
      requires Valid() && key in buckets
      modifies this
      ensures Valid() && all == old(all)
      ensures state == Perform(config, old(state), Sweep(key, now, now), true).0
      ensures buckets ==
        if now - old(buckets[key].lastRefill) > 300_000_000_000 then old(buckets) - {key} else old(buckets)
    {
      assert state.cells[state.names[key]] == Cell(buckets[key].key, buckets[key].View());
      state := Perform(config, state, Sweep(key, now, now), true).0;
      if buckets[key].lastRefill < now - IDLE {
        buckets := buckets - {key};
      }
    }

    /** One round of the cleanup's loop. */
    method SweepNext(key: string, now: int, ghost before: Limiter, ghost rest: set<string>, ghost sweeps: seq<Action>)
      requires Valid() && IsUnderWay(config, before, state, sweeps, rest, now) && key in rest
      modifies this
      ensures Valid() && all == old(all)
      ensures IsUnderWay(config, before, state, sweeps + [Sweep(key, now, now)], rest - {key}, now)
    {
      UnderWayStep(config, before, state, sweeps, rest, key, now);
      RestIsNamed(config, before, state, sweeps, rest, key, now);
      hide IsUnderWay, Perform;
      SweepKey(key, now);
    }

    /** Sweeps the keys one by one, with one reading of the clock. */
    method Cleanup(now: int) returns (ghost sweeps: seq<Action>)
      requires Valid()
      modifies this
      ensures Valid() && all == old(all)
      ensures state == old(state).(names := KeptNames(old(state), now))
      ensures Contents(state) == Kept(old(Contents(state)), now)
      ensures IsUnderWay(config, old(state), state, sweeps, {}, now)
    {
      var rest := buckets.Keys;
      sweeps := [];
      ghost var before, objects := state, all;
      UnderWayFirst(config, before, now);
      while rest != {}
        invariant Valid() && all == objects
        invariant IsUnderWay(config, before, state, sweeps, rest, now)
        decreases rest
      {
        hide Valid, IsUnderWay;
        var k :| k in rest;
        SweepNext(k, now, before, rest, sweeps);
        sweeps := sweeps + [Sweep(k, now, now)];
        rest := rest - {k};
      }
      SweptAll(before, state, now);
      WholeCleanup(before, now);
    }
  }

  /** The sweeps so far lead from one state to the other, all with one reading of the clock, and the rest is
    * still to be swept. */
  ghost predicate IsUnderWay(cfg: Config, s: Limiter, s': Limiter, sweeps: seq<Action>, rest: set<string>, now: int) {
    && Coherent(s) && SweptBut(s, s', rest, now) && s' == Reached(cfg, s, sweeps, true)
    && forall i :: 0 <= i < |sweeps| ==> sweeps[i].Sweep? && sweeps[i].read == sweeps[i].now == now
  }

  lemma UnderWayFirst(cfg: Config, s: Limiter, now: int)
    requires Coherent(s)
    ensures IsUnderWay(cfg, s, s, [], s.names.Keys, now)
  {
  }

  lemma UnderWayStep(cfg: Config, s: Limiter, s': Limiter, sweeps: seq<Action>, rest: set<string>, key: string,
      now: int)
    requires IsUnderWay(cfg, s, s', sweeps, rest, now) && key in rest
    ensures var a := Sweep(key, now, now);
      IsUnderWay(cfg, s, Perform(cfg, s', a, true).0, sweeps + [a], rest - {key}, now)
  {
    SweptStep(cfg, s, s', rest, key, now);
    ReachedOneMore(cfg, s, sweeps, Sweep(key, now, now));
    hide Perform, SweptBut;
  }

  lemma RestIsNamed(cfg: Config, s: Limiter, s': Limiter, sweeps: seq<Action>, rest: set<string>, key: string, now: int)
    requires IsUnderWay(cfg, s, s', sweeps, rest, now) && key in rest
    ensures key in s'.names
  {
  }

  lemma {:induction false} ReachedOneMore(cfg: Config, s: Limiter, actions: seq<Action>, a: Action)
    ensures Reached(cfg, s, actions + [a], true) == Perform(cfg, Reached(cfg, s, actions, true), a, true).0
    decreases |actions|
  {
    hide Perform;
    if actions == [] {
      assert [a][1..] == [] && [] + [a] == [a];
    } else {
      assert (actions + [a])[1..] == actions[1..] + [a];
      ReachedOneMore(cfg, Perform(cfg, s, actions[0], true).0, actions[1..], a);
    }
  }
}
