/**
 * The token-bucket limiter on values, and what its buckets and their eviction allow over time. Here a request is
 * one event, with no cleanup between its lookup and its draw; RateLimitThreads is about the two apart.
 */
module RateLimitModel {

  const MINUTE: int := 60_000_000_000  // in nanoseconds
  const IDLE: int := 5 * MINUTE

  datatype Config = Config(requestsPerMin: int, burstSize: int)

  datatype Bucket = Bucket(tokens: int, lastRefill: int)

  type Buckets = map<string, Bucket>

  /** A request reads the clock at the lookup of its bucket and again before the refill. */
  datatype Event = Request(key: string, lookup: int, now: int) | Cleaned(now: int)

  /** Whole tokens earned in some time; nothing is added for a rate or a time that is not positive. */
  function TokensToAdd(cfg: Config, elapsed: int): nat {
    if elapsed <= 0 || cfg.requestsPerMin <= 0 then 0 else TokensFor(elapsed, cfg.requestsPerMin)
  }

  function TokensFor(elapsed: nat, rate: nat): nat {
    elapsed * rate / MINUTE
  }

  function Refilled(cfg: Config, b: Bucket, now: int): Bucket {
    var add := TokensToAdd(cfg, now - b.lastRefill);
    if add > 0 then Bucket(if b.tokens + add > cfg.burstSize then cfg.burstSize else b.tokens + add, now) else b
  }

  /** One request at a bucket: refill, then take a token if there is one. */
  function Take(cfg: Config, b: Bucket, now: int): (Bucket, bool) {
    var r := Refilled(cfg, b, now);
    if r.tokens > 0 then (Bucket(r.tokens - 1, r.lastRefill), true) else (r, false)
  }

  function BucketOf(cfg: Config, s: Buckets, key: string, lookup: int): Bucket {
    if key in s then s[key] else Bucket(cfg.burstSize, lookup)
  }

  function Allow(cfg: Config, s: Buckets, key: string, lookup: int, now: int): (Buckets, bool) {
    var (b, ok) := Take(cfg, BucketOf(cfg, s, key, lookup), now);
    (s[key := b], ok)
  }

  function Kept(s: Buckets, now: int): Buckets {
    map k | k in s && !(s[k].lastRefill < now - IDLE) :: s[k]
  }

  /** One event; without eviction a cleanup does nothing. */
  function Step(cfg: Config, s: Buckets, e: Event, evict: bool): (Buckets, bool) {
    match e
    case Request(key, lookup, now) => Allow(cfg, s, key, lookup, now)
    case Cleaned(now) => (if evict then Kept(s, now) else s, false)
  }

  function After(cfg: Config, s: Buckets, events: seq<Event>, evict: bool): Buckets
    decreases |events|
  {
    if events == [] then s else After(cfg, Step(cfg, s, events[0], evict).0, events[1..], evict)
  }

  function Answers(cfg: Config, s: Buckets, events: seq<Event>, evict: bool): seq<bool>
    decreases |events|
  {
    if events == [] then []
    else
      var (s', ok) := Step(cfg, s, events[0], evict);
      [ok] + Answers(cfg, s', events[1..], evict)
  }

  /** The requests for a key that are admitted. */
  function Admitted(cfg: Config, s: Buckets, events: seq<Event>, key: string, evict: bool): nat
    decreases |events|
  {
    if events == [] then 0
    else
      var (s', ok) := Step(cfg, s, events[0], evict);
      (if events[0].Request? && events[0].key == key && ok then 1 else 0) + Admitted(cfg, s', events[1..], key, evict)
  }

  /** The clock does not run backwards from time t on. */
  predicate Timed(events: seq<Event>, t: int) {
    events == []
    || (t <= events[0].now && (events[0].Request? ==> t <= events[0].lookup <= events[0].now)
        && Timed(events[1..], events[0].now))
  }

  /** The time of the last event. */
  function End(events: seq<Event>, t: int): int {
    if events == [] then t else End(events[1..], events[0].now)
  }

  /** An idle bucket has earned a full burst by the time it is evicted; the exact condition below. */
  predicate EvictionIsHarmless(cfg: Config) {
    cfg.burstSize <= 0 || TokensToAdd(cfg, IDLE + 1) >= cfg.burstSize
  }

  function Rate(cfg: Config): nat { if cfg.requestsPerMin <= 0 then 0 else cfg.requestsPerMin }

  function Burst(cfg: Config): nat { if cfg.burstSize <= 0 then 0 else cfg.burstSize }

  // Arithmetic

  lemma MulMonotone(a: int, b: int, c: nat)
    requires a <= b
    ensures a * c <= b * c
  {
  }

  lemma TokensBounds(cfg: Config, elapsed: nat)
    ensures TokensToAdd(cfg, elapsed) * MINUTE <= elapsed * Rate(cfg) < (TokensToAdd(cfg, elapsed) + 1) * MINUTE
  {
    if elapsed == 0 {
      assert elapsed * Rate(cfg) == 0;
    } else if cfg.requestsPerMin <= 0 {
      assert elapsed * Rate(cfg) == 0;
    }
  }

  lemma TokensMonotone(cfg: Config, a: int, b: int)
    requires a <= b
    ensures TokensToAdd(cfg, a) <= TokensToAdd(cfg, b)
  {
    if 0 < a && cfg.requestsPerMin > 0 {
      MulMonotone(a, b, cfg.requestsPerMin);
    }
  }

  // Credit

  /** Buckets hold between 0 and burst tokens and were refilled in the past. */
  ghost predicate Sane(cfg: Config, s: Buckets, t: int) {
    forall k :: k in s ==>
      s[k].lastRefill <= t && s[k].tokens <= cfg.burstSize && (cfg.burstSize >= 0 ==> s[k].tokens >= 0)
  }

  /** What a key could spend at time t, in tokens times MINUTE; a missing bucket counts as full. */
  function Credit(cfg: Config, s: Buckets, key: string, t: int): int {
    if key in s then s[key].tokens * MINUTE + (t - s[key].lastRefill) * Rate(cfg) else Burst(cfg) * MINUTE
  }

  lemma StepKeepsSane(cfg: Config, s: Buckets, e: Event, t: int, evict: bool)
    requires Sane(cfg, s, t) && Timed([e], t)
    ensures Sane(cfg, Step(cfg, s, e, evict).0, e.now)
  {
  }

  /** A refill turns time into tokens and never into more. */
  lemma RefillSpendsTime(cfg: Config, b: Bucket, now: int)
    requires b.lastRefill <= now
    ensures var r := Refilled(cfg, b, now);
      r.tokens * MINUTE + (now - r.lastRefill) * Rate(cfg) <= b.tokens * MINUTE + (now - b.lastRefill) * Rate(cfg)
  {
    TokensBounds(cfg, now - b.lastRefill);
  }

  /** Right after a refill the time not yet turned into tokens is worth less than one. */
  lemma RefillLeavesLess(cfg: Config, b: Bucket, now: int)
    requires b.lastRefill <= now && b.tokens <= cfg.burstSize && cfg.burstSize >= 0
    ensures var r := Refilled(cfg, b, now);
      r.tokens * MINUTE + (now - r.lastRefill) * Rate(cfg) < (cfg.burstSize + 1) * MINUTE
  {
    TokensBounds(cfg, now - b.lastRefill);
    MulMonotone(Refilled(cfg, b, now).tokens, cfg.burstSize, MINUTE);
  }

  lemma IdleIsWorthABurst(cfg: Config, idle: int)
    requires cfg.burstSize > 0 && EvictionIsHarmless(cfg) && idle > IDLE
    ensures idle * Rate(cfg) >= cfg.burstSize * MINUTE
  {
    TokensBounds(cfg, IDLE + 1);
    MulMonotone(cfg.burstSize, TokensToAdd(cfg, IDLE + 1), MINUTE);
    MulMonotone(IDLE + 1, idle, Rate(cfg));
  }

  lemma Distribute(a: int, b: int, c: int)
    ensures (a + b) * c == a * c + b * c
  {
  }

  /** An admitted request costs a token of credit; otherwise credit grows with time at the rate, or less. */
  lemma StepSpendsCredit(cfg: Config, s: Buckets, e: Event, t: int, key: string, evict: bool)
    requires Sane(cfg, s, t) && Timed([e], t) && cfg.burstSize > 0 && (evict ==> EvictionIsHarmless(cfg))
    ensures var (s', ok) := Step(cfg, s, e, evict);
      Credit(cfg, s', key, e.now) + (if e.Request? && e.key == key && ok then MINUTE else 0)
        <= Credit(cfg, s, key, t) + (e.now - t) * Rate(cfg)
  {
    var r := Rate(cfg);
    MulMonotone(0, e.now - t, r);
    if key in s {
      Distribute(t - s[key].lastRefill, e.now - t, r);
    }
    match e
    case Request(k, lookup, now) =>
      if k == key {
        var b := BucketOf(cfg, s, key, lookup);
        RefillSpendsTime(cfg, b, now);
        MulMonotone(now - lookup, now - t, r);
        Distribute(Refilled(cfg, b, now).tokens - 1, 1, MINUTE);
      }
    case Cleaned(now) =>
      if key in s && evict && s[key].lastRefill < now - IDLE {
        IdleIsWorthABurst(cfg, now - s[key].lastRefill);
        MulMonotone(0, s[key].tokens, MINUTE);
      }
  }

  lemma {:induction false} RunSpendsCredit(cfg: Config, s: Buckets, events: seq<Event>, t: int, key: string,
      evict: bool)
    requires Sane(cfg, s, t) && Timed(events, t) && cfg.burstSize > 0 && (evict ==> EvictionIsHarmless(cfg))
    ensures Credit(cfg, After(cfg, s, events, evict), key, End(events, t))
      + Admitted(cfg, s, events, key, evict) * MINUTE
      <= Credit(cfg, s, key, t) + (End(events, t) - t) * Rate(cfg)
    ensures Sane(cfg, After(cfg, s, events, evict), End(events, t)) && End(events, t) >= t
    decreases |events|
  {
    if events != [] {
      var e := events[0];
      var s' := Step(cfg, s, e, evict).0;
      StepSpendsCredit(cfg, s, e, t, key, evict);
      StepKeepsSane(cfg, s, e, t, evict);
      RunSpendsCredit(cfg, s', events[1..], e.now, key, evict);
      Distribute(e.now - t, End(events, t) - e.now, Rate(cfg));
    }
  }

  lemma CreditIsNonNegative(cfg: Config, s: Buckets, key: string, t: int)
    requires Sane(cfg, s, t) && cfg.burstSize >= 0
    ensures Credit(cfg, s, key, t) >= 0
  {
    if key in s {
      MulMonotone(0, t - s[key].lastRefill, Rate(cfg));
    }
  }

  lemma {:induction false} NothingAdmitted(cfg: Config, s: Buckets, events: seq<Event>, t: int, key: string,
      evict: bool)
    requires Sane(cfg, s, t) && Timed(events, t) && cfg.burstSize <= 0
    ensures Admitted(cfg, s, events, key, evict) == 0
    ensures Answers(cfg, s, events, evict) == seq(|events|, i => false)
    decreases |events|
  {
    if events != [] {
      StepKeepsSane(cfg, s, events[0], t, evict);
      NothingAdmitted(cfg, Step(cfg, s, events[0], evict).0, events[1..], events[0].now, key, evict);
    }
  }

  /** Right after its first request in a window, a key has less than a burst and a token left, with that request. */
  lemma FirstRequestSpends(cfg: Config, s: Buckets, e: Event, t: int, evict: bool)
    requires Sane(cfg, s, t) && cfg.burstSize > 0 && e.Request? && Timed([e], t)
    ensures var (s', ok) := Step(cfg, s, e, evict);
      Credit(cfg, s', e.key, e.now) + (if ok then MINUTE else 0) < (cfg.burstSize + 1) * MINUTE
  {
    var b := BucketOf(cfg, s, e.key, e.lookup);
    RefillLeavesLess(cfg, b, e.now);
    Distribute(Refilled(cfg, b, e.now).tokens - 1, 1, MINUTE);
  }

  /** In any window, fewer requests are admitted than the burst, plus the rate times the window, plus one. */
  lemma {:induction false} WindowBound(cfg: Config, s: Buckets, window: seq<Event>, t: int, key: string, evict: bool)
    requires Sane(cfg, s, t) && window != [] && Timed(window, t) && (evict ==> EvictionIsHarmless(cfg))
    ensures Admitted(cfg, s, window, key, evict) * MINUTE
      < (Burst(cfg) + 1) * MINUTE + (End(window, t) - window[0].now) * Rate(cfg)
    decreases |window|
  {
    hide Credit, Take;
    var e := window[0];
    var (s', ok) := Step(cfg, s, e, evict);
    StepKeepsSane(cfg, s, e, t, evict);
    EndIsLater(window[1..], e.now);
    MulMonotone(0, End(window, t) - e.now, Rate(cfg));
    if cfg.burstSize <= 0 {
      NothingAdmitted(cfg, s, window, t, key, evict);
    } else if e.Request? && e.key == key {
      FirstRequestSpends(cfg, s, e, t, evict);
      RunSpendsCredit(cfg, s', window[1..], e.now, key, evict);
      CreditIsNonNegative(cfg, After(cfg, s', window[1..], evict), key, End(window, t));
    } else if |window| > 1 {
      WindowBound(cfg, s', window[1..], e.now, key, evict);
      MulMonotone(End(window, t) - window[1].now, End(window, t) - e.now, Rate(cfg));
    }
  }

  lemma {:induction false} EndIsLater(events: seq<Event>, t: int)
    requires Timed(events, t)
    ensures End(events, t) >= t
  {
    if events != [] {
      EndIsLater(events[1..], events[0].now);
    }
  }
}
