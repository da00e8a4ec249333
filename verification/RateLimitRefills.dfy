/** What the limiter owes its callers: refills lose no credit, and a key may spend what it has earned. */
module RateLimitRefills {
  import opened RateLimitModel
  import opened RateLimitTheorems

  /** A refill keeps credit but for less than a token, unless it ends at the burst; and it never ends above. */
  lemma RefillKeepsCredit(cfg: Config, b: Bucket, now: int)
    requires b.lastRefill <= now && b.tokens <= cfg.burstSize
    ensures var r := Refilled(cfg, b, now);
      && b.tokens <= r.tokens <= cfg.burstSize && b.lastRefill <= r.lastRefill <= now
      && (r.tokens < cfg.burstSize ==>
            r.tokens * MINUTE + (now - r.lastRefill) * Rate(cfg) + MINUTE
              > b.tokens * MINUTE + (now - b.lastRefill) * Rate(cfg))
  {
    var add := TokensToAdd(cfg, now - b.lastRefill);
    TokensBounds(cfg, now - b.lastRefill);
    Distribute(b.tokens, add, MINUTE);
    assert (add + 1) * MINUTE == add * MINUTE + MINUTE;
  }

  /** The whole tokens that a rate earns in some time: as many as fit. */
  ghost predicate Earns(cfg: Config, elapsed: int, tokens: int) {
    && tokens >= 0
    && (elapsed <= 0 || cfg.requestsPerMin <= 0 ==> tokens == 0)
    && (elapsed > 0 && cfg.requestsPerMin > 0 ==>
          tokens * 60_000_000_000 <= elapsed * cfg.requestsPerMin < (tokens + 1) * 60_000_000_000)
  }

  lemma EarnedTokens(cfg: Config, elapsed: int)
    ensures Earns(cfg, elapsed, TokensToAdd(cfg, elapsed))
  {
    if elapsed > 0 && cfg.requestsPerMin > 0 {
      TokensBounds(cfg, elapsed);
    }
  }

  lemma EarnedOnce(cfg: Config, elapsed: int, a: int, b: int)
    requires Earns(cfg, elapsed, a) && Earns(cfg, elapsed, b)
    ensures a == b
  {
  }

  function Least(a: int, b: int): int { if a <= b then a else b }

  /** A draw, in full: what was earned joins the tokens, up to the burst, and one is taken when there is one. */
  ghost predicate IsDraw(cfg: Config, b: Bucket, now: int, earned: int, b': Bucket, taken: bool) {
    var all := if earned > 0 then Least(cfg.burstSize, b.tokens + earned) else b.tokens;
    && (taken <==> all > 0)
    && b'.tokens == (if taken then all - 1 else all)
    && b'.lastRefill == if earned > 0 then now else b.lastRefill
  }

  lemma TakeIsDraw(cfg: Config, b: Bucket, now: int, earned: int)
    requires Earns(cfg, now - b.lastRefill, earned)
    ensures IsDraw(cfg, b, now, earned, Take(cfg, b, now).0, Take(cfg, b, now).1)
  {
    EarnedTokens(cfg, now - b.lastRefill);
    EarnedOnce(cfg, now - b.lastRefill, earned, TokensToAdd(cfg, now - b.lastRefill));
  }

  /** The first of some requests leaves as many tokens as one fewer, and later ones find no more to add. */
  lemma FirstOfMany(cfg: Config, b: Bucket, now: int)
    requires 0 <= b.tokens <= cfg.burstSize && cfg.burstSize > 0
    ensures var (b', ok) := Take(cfg, b, now);
      var all := Least(cfg.burstSize, b.tokens + TokensToAdd(cfg, now - b.lastRefill));
      && (ok <==> all > 0)
      && (ok ==> b'.tokens == all - 1)
      && (ok ==> TokensToAdd(cfg, now - b'.lastRefill) == 0)
      && (!ok ==> b' == b)
  {
  }

  lemma {:induction false} NothingLeft(cfg: Config, s: Buckets, key: string, now: int, n: nat, evict: bool)
    requires key in s && s[key].tokens == 0 && TokensToAdd(cfg, now - s[key].lastRefill) == 0
    ensures Admitted(cfg, s, Requests(key, now, n), key, evict) == 0
    decreases n
  {
    if n > 0 {
      assert Requests(key, now, n)[1..] == Requests(key, now, n - 1);
      assert Step(cfg, s, Requests(key, now, n)[0], evict) == (s, false) by {
        assert s[key := s[key]] == s;
      }
      NothingLeft(cfg, s, key, now, n - 1, evict);
    }
  }

  /** From a bucket to which nothing is added now: as many of the requests as there are tokens. */
  lemma TokensAreSpent(cfg: Config, s: Buckets, key: string, now: int, n: nat, evict: bool)
    requires key in s && s[key].tokens >= 0 && TokensToAdd(cfg, now - s[key].lastRefill) == 0
    ensures Admitted(cfg, s, Requests(key, now, n), key, evict) == Least(n, s[key].tokens)
  {
    var b := s[key];
    var first := Least(n, b.tokens);
    RequestsTake(cfg, s, key, now, first, b, evict);
    assert Requests(key, now, n) == Requests(key, now, first) + Requests(key, now, n - first);
    Concatenated(cfg, s, Requests(key, now, first), Requests(key, now, n - first), key, evict);
    if n > first {
      NothingLeft(cfg, s[key := Bucket(b.tokens - first, b.lastRefill)], key, now, n - first, evict);
    }
  }

  /** Of requests at one instant as many are admitted as there are tokens and time has earned, up to the burst. */
  lemma EarnedIsAdmitted(cfg: Config, s: Buckets, key: string, now: int, n: nat, earned: int, evict: bool)
    requires key in s && 0 <= s[key].tokens <= cfg.burstSize && cfg.burstSize > 0
    requires Earns(cfg, now - s[key].lastRefill, earned)
    ensures Admitted(cfg, s, Requests(key, now, n), key, evict)
      == Least(n, Least(cfg.burstSize, s[key].tokens + earned))
  {
    var b := s[key];
    EarnedTokens(cfg, now - b.lastRefill);
    EarnedOnce(cfg, now - b.lastRefill, earned, TokensToAdd(cfg, now - b.lastRefill));
    FirstOfMany(cfg, b, now);
    if n > 0 {
      var (b', ok) := Take(cfg, b, now);
      hide Take, TokensToAdd, Earns;
      assert Requests(key, now, n)[1..] == Requests(key, now, n - 1);
      assert Step(cfg, s, Requests(key, now, n)[0], evict) == (s[key := b'], ok);
      if ok {
        TokensAreSpent(cfg, s[key := b'], key, now, n - 1, evict);
      } else {
        NothingLeft(cfg, s[key := b'], key, now, n - 1, evict);
      }
    }
  }

  /** An unknown key has a full burst. */
  lemma UnknownKeyHasABurst(cfg: Config, s: Buckets, key: string, now: int, n: nat, evict: bool)
    requires key !in s && cfg.burstSize > 0
    ensures Admitted(cfg, s, Requests(key, now, n), key, evict) == Least(n, cfg.burstSize)
  {
    if n > 0 {
      var b := Bucket(cfg.burstSize - 1, now);
      assert Requests(key, now, n)[1..] == Requests(key, now, n - 1);
      assert Step(cfg, s, Requests(key, now, n)[0], evict) == (s[key := b], true);
      TokensAreSpent(cfg, s[key := b], key, now, n - 1, evict);
    }
  }

  /** A request is denied iff its bucket is empty and the time since the last refill has not earned a token. */
  lemma DeniedIff(cfg: Config, s: Buckets, key: string, lookup: int, now: int)
    requires cfg.burstSize > 0 && (key in s ==> 0 <= s[key].tokens <= cfg.burstSize && s[key].lastRefill <= now)
    ensures !Allow(cfg, s, key, lookup, now).1 <==>
      key in s && s[key].tokens == 0 && (now - s[key].lastRefill) * Rate(cfg) < 60_000_000_000
  {
    if key in s {
      TokensBounds(cfg, now - s[key].lastRefill);
      var add := TokensToAdd(cfg, now - s[key].lastRefill);
      MulMonotone(1, if add > 0 then add else 1, MINUTE);
    }
  }

  /** An event leaves the buckets of other keys alone; a cleanup removes exactly the idle ones and changes none. */
  lemma EventsTouchTheirKey(cfg: Config, s: Buckets, e: Event, key: string)
    ensures var s' := Step(cfg, s, e, true).0;
      && (e.Request? && e.key != key ==> (key in s' <==> key in s) && (key in s ==> s'[key] == s[key]))
      && (e.Cleaned? ==>
            && (key in s' <==> key in s && e.now - s[key].lastRefill <= 300_000_000_000)
            && (key in s' ==> s'[key] == s[key]))
  {
    hide Take;
  }
}
