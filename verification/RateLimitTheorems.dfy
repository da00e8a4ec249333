/** When eviction of idle buckets is safe: exactly when an idle bucket has earned a full burst. */
module RateLimitTheorems {
  import opened RateLimitModel

  // Eviction cannot be observed

  ghost predicate OneReading(events: seq<Event>) {
    forall i :: 0 <= i < |events| && events[i].Request? ==> events[i].lookup == events[i].now
  }

  /** The evicting limiter holds the same buckets but for idle ones. */
  ghost predicate Simulates(s: Buckets, all: Buckets, t: int) {
    && (forall k :: k in s ==> k in all && s[k] == all[k])
    && (forall k :: k in all && k !in s ==> all[k].lastRefill < t - IDLE)
  }

  lemma IdleIsFull(cfg: Config, b: Bucket, now: int)
    requires cfg.burstSize > 0 && EvictionIsHarmless(cfg) && b.lastRefill < now - IDLE && b.tokens >= 0
    ensures Refilled(cfg, b, now) == Bucket(cfg.burstSize, now)
  {
    TokensMonotone(cfg, IDLE + 1, now - b.lastRefill);
  }

  /** A nanosecond earns a token. */
  predicate IsFast(cfg: Config) { cfg.requestsPerMin >= MINUTE }

  lemma FastRefills(cfg: Config, elapsed: int)
    requires IsFast(cfg) && elapsed > 0
    ensures TokensToAdd(cfg, elapsed) > 0
  {
    MulMonotone(1, elapsed, cfg.requestsPerMin);
  }

  lemma SimulationStep(cfg: Config, s: Buckets, all: Buckets, e: Event, t: int)
    requires cfg.burstSize > 0 && EvictionIsHarmless(cfg)
    requires Sane(cfg, s, t) && Sane(cfg, all, t) && Simulates(s, all, t)
    requires Timed([e], t) && (e.Request? && e.lookup < e.now ==> IsFast(cfg))
    ensures Simulates(Step(cfg, s, e, true).0, Step(cfg, all, e, false).0, e.now)
    ensures Step(cfg, s, e, true).1 == Step(cfg, all, e, false).1
  {
    if e.Request? && e.key !in s && e.key in all {
      IdleIsFull(cfg, all[e.key], e.now);
      if e.lookup < e.now {
        FastRefills(cfg, e.now - e.lookup);
      }
    }
  }

  lemma {:induction false} SameAnswers(cfg: Config, s: Buckets, all: Buckets, events: seq<Event>, t: int)
    requires cfg.burstSize > 0 && EvictionIsHarmless(cfg)
    requires Sane(cfg, s, t) && Sane(cfg, all, t) && Simulates(s, all, t)
    requires Timed(events, t) && (OneReading(events) || IsFast(cfg))
    ensures Answers(cfg, s, events, true) == Answers(cfg, all, events, false)
    decreases |events|
  {
    if events != [] {
      var e := events[0];
      SimulationStep(cfg, s, all, e, t);
      StepKeepsSane(cfg, s, e, t, true);
      StepKeepsSane(cfg, all, e, t, false);
      SameAnswers(cfg, Step(cfg, s, e, true).0, Step(cfg, all, e, false).0, events[1..], e.now);
    }
  }

  // The history that shows the difference: bursts just after each eviction

  const PERIOD: int := IDLE + 1

  function Requests(key: string, t: int, n: nat): (events: seq<Event>)
    ensures |events| == n && forall i :: 0 <= i < n ==> events[i] == Request(key, t, t)
  {
    seq(n, i => Request(key, t, t))
  }

  function Cycle(cfg: Config, key: string, t: int): seq<Event> {
    [Cleaned(t)] + Requests(key, t, Burst(cfg))
  }

  function Cycles(cfg: Config, key: string, c: nat): seq<Event> {
    if c == 0 then [] else Cycles(cfg, key, c - 1) + Cycle(cfg, key, (c - 1) * PERIOD)
  }

  lemma {:induction false} Concatenated(cfg: Config, s: Buckets, a: seq<Event>, b: seq<Event>, key: string, evict: bool)
    ensures After(cfg, s, a + b, evict) == After(cfg, After(cfg, s, a, evict), b, evict)
    ensures Admitted(cfg, s, a + b, key, evict)
      == Admitted(cfg, s, a, key, evict) + Admitted(cfg, After(cfg, s, a, evict), b, key, evict)
    decreases |a|
  {
    if a == [] {
      assert a + b == b;
    } else {
      assert (a + b)[1..] == a[1..] + b;
      Concatenated(cfg, Step(cfg, s, a[0], evict).0, a[1..], b, key, evict);
    }
  }

  lemma {:induction false} TimedConcatenated(a: seq<Event>, b: seq<Event>, t: int)
    requires Timed(a, t) && Timed(b, End(a, t))
    ensures Timed(a + b, t) && End(a + b, t) == End(b, End(a, t))
  {
    if a == [] {
      assert a + b == b;
    } else {
      assert (a + b)[1..] == a[1..] + b;
      TimedConcatenated(a[1..], b, a[0].now);
    }
  }

  /** Requests at one instant take the tokens there are, when the time since the last refill earns none. */
  lemma {:induction false} RequestsTake(cfg: Config, s: Buckets, key: string, t: int, n: nat, b: Bucket, evict: bool)
    requires key in s && s[key] == b && n <= b.tokens && TokensToAdd(cfg, t - b.lastRefill) == 0
    ensures Admitted(cfg, s, Requests(key, t, n), key, evict) == n
    ensures After(cfg, s, Requests(key, t, n), evict) == s[key := Bucket(b.tokens - n, b.lastRefill)]
    ensures Timed(Requests(key, t, n), t) && End(Requests(key, t, n), t) == t
    decreases n
  {
    if n == 0 {
      assert s[key := b] == s;
    } else {
      var b' := Bucket(b.tokens - 1, b.lastRefill);
      var s' := s[key := b'];
      assert Requests(key, t, n)[1..] == Requests(key, t, n - 1);
      assert Step(cfg, s, Requests(key, t, n)[0], evict) == (s', true);
      RequestsTake(cfg, s', key, t, n - 1, b', evict);
      assert s'[key := Bucket(b.tokens - n, b.lastRefill)] == s[key := Bucket(b.tokens - n, b.lastRefill)];
    }
  }

  /** A burst on an evicted or unknown key is admitted in full. */
  lemma FreshBurst(cfg: Config, key: string, t: int, evict: bool)
    requires cfg.burstSize > 0
    ensures Admitted(cfg, map[], Requests(key, t, cfg.burstSize), key, evict) == cfg.burstSize
    ensures After(cfg, map[], Requests(key, t, cfg.burstSize), evict) == map[key := Bucket(0, t)]
    ensures Timed(Requests(key, t, cfg.burstSize), t) && End(Requests(key, t, cfg.burstSize), t) == t
  {
    var b := cfg.burstSize;
    var s' := map[key := Bucket(b - 1, t)];
    assert Requests(key, t, b)[1..] == Requests(key, t, b - 1);
    assert Step(cfg, map[], Requests(key, t, b)[0], evict) == (s', true);
    RequestsTake(cfg, s', key, t, b - 1, Bucket(b - 1, t), evict);
  }

  /** One cycle after the last: the bucket is evicted, and the next burst is admitted in full. */
  lemma CycleAdmits(cfg: Config, s: Buckets, key: string, t: int)
    requires cfg.burstSize > 0 && s.Keys <= {key} && (key in s ==> s[key].lastRefill < t - IDLE)
    ensures Admitted(cfg, s, Cycle(cfg, key, t), key, true) == cfg.burstSize
    ensures After(cfg, s, Cycle(cfg, key, t), true) == map[key := Bucket(0, t)]
    ensures Timed(Cycle(cfg, key, t), t) && End(Cycle(cfg, key, t), t) == t
  {
    FreshBurst(cfg, key, t, true);
    var cycle := Cycle(cfg, key, t);
    assert cycle[0] == Cleaned(t) && cycle[1..] == Requests(key, t, cfg.burstSize);
    assert Kept(s, t) == map[];
  }

  lemma {:induction false} CyclesAdmit(cfg: Config, key: string, c: nat)
    requires cfg.burstSize > 0 && c >= 1
    ensures Admitted(cfg, map[], Cycles(cfg, key, c), key, true) == c * cfg.burstSize
    ensures After(cfg, map[], Cycles(cfg, key, c), true) == map[key := Bucket(0, (c - 1) * PERIOD)]
    ensures Timed(Cycles(cfg, key, c), 0) && End(Cycles(cfg, key, c), 0) == (c - 1) * PERIOD
    ensures OneReading(Cycles(cfg, key, c)) && Cycles(cfg, key, c)[0] == Cleaned(0)
  {
    hide Step;
    var before, t := Cycles(cfg, key, c - 1), (c - 1) * PERIOD;
    var s := After(cfg, map[], before, true);
    if c > 1 {
      CyclesAdmit(cfg, key, c - 1);
      assert (c - 2) * PERIOD < t - IDLE;
    }
    CycleAdmits(cfg, s, key, t);
    Concatenated(cfg, map[], before, Cycle(cfg, key, t), key, true);
    TimedLater(Cycle(cfg, key, t), End(before, 0), t);
    TimedConcatenated(before, Cycle(cfg, key, t), 0);
    Distribute(c - 1, 1, cfg.burstSize);
  }

  lemma TimedLater(events: seq<Event>, t: int, t': int)
    requires events != [] && Timed(events, t') && t <= t'
    ensures Timed(events, t) && End(events, t) == End(events, t')
  {
  }

  /** What is admitted can be read off the answers. */
  lemma {:induction false} AdmittedFromAnswers(cfg: Config, s: Buckets, s': Buckets, events: seq<Event>, key: string,
      evict: bool, evict': bool)
    requires Answers(cfg, s, events, evict) == Answers(cfg, s', events, evict')
    ensures Admitted(cfg, s, events, key, evict) == Admitted(cfg, s', events, key, evict')
    decreases |events|
  {
    if events != [] {
      var a, a' := Answers(cfg, s, events, evict), Answers(cfg, s', events, evict');
      assert a[0] == a'[0] && a[1..] == a'[1..];
      AdmittedFromAnswers(cfg, Step(cfg, s, events[0], evict).0, Step(cfg, s', events[0], evict').0, events[1..], key,
        evict, evict');
    }
  }

  /** When eviction is not harmless, a period earns less than a burst. */
  lemma PeriodEarnsLess(cfg: Config)
    requires !EvictionIsHarmless(cfg)
    ensures PERIOD * Rate(cfg) < cfg.burstSize * MINUTE
  {
    TokensBounds(cfg, PERIOD);
    MulMonotone(TokensToAdd(cfg, PERIOD) + 1, cfg.burstSize, MINUTE);
  }

  /** Of two cycles the limiter that never evicts admits less. */
  lemma TwoCyclesAdmitLess(cfg: Config, key: string)
    requires !EvictionIsHarmless(cfg)
    ensures Admitted(cfg, map[], Cycles(cfg, key, 2), key, false) < Admitted(cfg, map[], Cycles(cfg, key, 2), key, true)
  {
    var events := Cycles(cfg, key, 2);
    CyclesAdmit(cfg, key, 2);
    RunSpendsCredit(cfg, map[], events, 0, key, false);
    CreditIsNonNegative(cfg, After(cfg, map[], events, false), key, End(events, 0));
    PeriodEarnsLess(cfg);
  }

  lemma TwoCyclesDiffer(cfg: Config, key: string)
    requires !EvictionIsHarmless(cfg)
    ensures Answers(cfg, map[], Cycles(cfg, key, 2), true) != Answers(cfg, map[], Cycles(cfg, key, 2), false)
  {
    var events := Cycles(cfg, key, 2);
    TwoCyclesAdmitLess(cfg, key);
    if Answers(cfg, map[], events, true) == Answers(cfg, map[], events, false) {
      AdmittedFromAnswers(cfg, map[], map[], events, key, true, false);
    }
  }

  ghost predicate Unobservable(cfg: Config, events: seq<Event>, t: int) {
    Timed(events, t) && OneReading(events) ==>
      Answers(cfg, map[], events, true) == Answers(cfg, map[], events, false)
  }

  /** On every history: the evicting limiter answers like one that never evicts, iff eviction is harmless. */
  lemma EvictionUnobservableIff(cfg: Config)
    ensures EvictionIsHarmless(cfg) <==> forall events, t :: Unobservable(cfg, events, t)
  {
    if EvictionIsHarmless(cfg) {
      forall events, t ensures Unobservable(cfg, events, t) {
        if Timed(events, t) && OneReading(events) {
          if cfg.burstSize > 0 {
            SameAnswers(cfg, map[], map[], events, t);
          } else {
            NothingAdmitted(cfg, map[], events, t, "", true);
            NothingAdmitted(cfg, map[], events, t, "", false);
          }
        }
      }
    } else {
      TwoCyclesDiffer(cfg, "");
      CyclesAdmit(cfg, "", 2);
      var events := Cycles(cfg, "", 2);
      assert !Unobservable(cfg, events, 0);
    }
  }

  /** A rate that refills the burst within the idle time makes eviction harmless. */
  lemma FiveMinutesSuffice(cfg: Config)
    ensures EvictionIsHarmless(cfg) <==> cfg.burstSize <= 0 || (IDLE + 1) * Rate(cfg) >= cfg.burstSize * MINUTE
    ensures 5 * cfg.requestsPerMin >= cfg.burstSize ==> EvictionIsHarmless(cfg)
  {
    TokensBounds(cfg, IDLE + 1);
    if cfg.burstSize > 0 {
      if TokensToAdd(cfg, IDLE + 1) >= cfg.burstSize {
        MulMonotone(cfg.burstSize, TokensToAdd(cfg, IDLE + 1), MINUTE);
      } else {
        MulMonotone(TokensToAdd(cfg, IDLE + 1) + 1, cfg.burstSize, MINUTE);
      }
    }
  }

  // The rate bound

  /** Fewer requests than the burst, plus the rate times the window, plus one. */
  ghost predicate WithinRate(cfg: Config, before: seq<Event>, window: seq<Event>, t: int, key: string) {
    window != [] && Timed(before + window, t) ==>
      Admitted(cfg, After(cfg, map[], before, true), window, key, true) * MINUTE
        < (Burst(cfg) + 1) * MINUTE + (End(window, t) - window[0].now) * Rate(cfg)
  }

  lemma {:induction false} TimedSplit(a: seq<Event>, b: seq<Event>, t: int)
    requires Timed(a + b, t)
    ensures Timed(a, t) && Timed(b, End(a, t))
  {
    if a == [] {
      assert a + b == b;
    } else {
      assert (a + b)[1..] == a[1..] + b;
      TimedSplit(a[1..], b, a[0].now);
    }
  }

  lemma {:induction false} AfterIsSane(cfg: Config, s: Buckets, events: seq<Event>, t: int, evict: bool)
    requires Sane(cfg, s, t) && Timed(events, t)
    ensures Sane(cfg, After(cfg, s, events, evict), End(events, t))
    decreases |events|
  {
    if events != [] {
      StepKeepsSane(cfg, s, events[0], t, evict);
      AfterIsSane(cfg, Step(cfg, s, events[0], evict).0, events[1..], events[0].now, evict);
    }
  }

  /** Enough cycles admit more than any rate bound allows. */
  lemma CyclesExceedRate(cfg: Config, key: string)
    requires !EvictionIsHarmless(cfg)
    ensures !WithinRate(cfg, [], Cycles(cfg, key, MINUTE + 1), 0, key)
  {
    var c, b := MINUTE + 1, cfg.burstSize;
    var window := Cycles(cfg, key, c);
    CyclesAdmit(cfg, key, c);
    PeriodEarnsLess(cfg);
    assert [] + window == window;
    assert c * b * MINUTE >= (b + 1) * MINUTE + MINUTE * PERIOD * Rate(cfg) by {
      var x, y := b * MINUTE, PERIOD * Rate(cfg);
      assert x >= y + 1;
      MulMonotone(y + 1, x, MINUTE);
      assert c * b * MINUTE == MINUTE * x + x;
      assert MINUTE * PERIOD * Rate(cfg) == MINUTE * y;
    }
  }

  /** In every window of every history the rate bound holds for every key, iff eviction is harmless. */
  lemma RateBoundIff(cfg: Config)
    ensures EvictionIsHarmless(cfg) <==> forall before, window, t, key :: WithinRate(cfg, before, window, t, key)
  {
    if EvictionIsHarmless(cfg) {
      forall before, window, t, key ensures WithinRate(cfg, before, window, t, key) {
        if window != [] && Timed(before + window, t) {
          TimedSplit(before, window, t);
          AfterIsSane(cfg, map[], before, t, true);
          WindowBound(cfg, After(cfg, map[], before, true), window, End(before, t), key, true);
        }
      }
    } else {
      CyclesExceedRate(cfg, "");
    }
  }

  // Two readings of the clock

  /** The time in which one token is earned. */
  ghost function TokenTime(cfg: Config): (e: nat)
    requires cfg.requestsPerMin > 0
    ensures TokensToAdd(cfg, e) >= 1 && e >= 1
    ensures forall d :: d < e ==> TokensToAdd(cfg, d) == 0
  {
    LeastTime(cfg, MINUTE)
  }

  /** The least time that earns a token, given one that does. */
  ghost function LeastTime(cfg: Config, enough: nat): (e: nat)
    requires TokensToAdd(cfg, enough) >= 1
    ensures TokensToAdd(cfg, e) >= 1 && e >= 1
    ensures forall d :: d < e ==> TokensToAdd(cfg, d) == 0
  {
    if TokensToAdd(cfg, enough - 1) >= 1 then LeastTime(cfg, enough - 1)
    else
      assert forall d :: d < enough ==> TokensToAdd(cfg, d) == 0 by {
        forall d | d < enough ensures TokensToAdd(cfg, d) == 0 {
          TokensMonotone(cfg, d, enough - 1);
        }
      }
      enough
  }

  /** A bucket is created, evicted when idle, and looked up one instant before its refill. */
  function LateLookup(key: string): seq<Event> {
    [Request(key, 0, 0), Cleaned(PERIOD), Request(key, PERIOD, PERIOD + 1)]
  }

  /** Then it is used up, and asked again as soon as the time since the lookup earns a token. */
  ghost function LateRefill(cfg: Config, key: string): seq<Event>
    requires cfg.requestsPerMin > 0 && cfg.burstSize > 0
  {
    var again := PERIOD + TokenTime(cfg);
    LateLookup(key) + Requests(key, PERIOD + 1, cfg.burstSize - 1) + [Request(key, again, again)]
  }

  /** The bucket after the late lookup: evicting, it counts from the lookup; not evicting, from the refill. */
  lemma LateLookupLeaves(cfg: Config, key: string, evict: bool)
    requires cfg.burstSize > 0 && EvictionIsHarmless(cfg) && !IsFast(cfg)
    ensures var b := Bucket(cfg.burstSize - 1, if evict then PERIOD else PERIOD + 1);
      After(cfg, map[], LateLookup(key), evict) == map[key := b]
    ensures Admitted(cfg, map[], LateLookup(key), key, evict) == 2
    ensures Timed(LateLookup(key), 0) && End(LateLookup(key), 0) == PERIOD + 1
  {
    var s0: Buckets := map[];
    var s1: Buckets := map[key := Bucket(cfg.burstSize - 1, 0)];
    var e0, e1, e2 := Request(key, 0, 0), Cleaned(PERIOD), Request(key, PERIOD, PERIOD + 1);
    var s2: Buckets := if evict then map[] else s1;
    assert [e0, e1, e2][1..] == [e1, e2] && [e1, e2][1..] == [e2] && [e2][1..] == [];
    assert Step(cfg, s0, e0, evict) == (s1, true);
    assert Step(cfg, s1, e1, evict) == (s2, false) by {
      assert Kept(s1, PERIOD) == map[];
    }
    TokensMonotone(cfg, IDLE + 1, PERIOD + 1);
    assert TokensToAdd(cfg, 1) == 0 by { SlowEarnsNothing(cfg); }
    LastOfThree(cfg, s2, key, evict);
    var s3 := Step(cfg, s2, e2, evict).0;
    hide Step;
    assert After(cfg, s2, [e2], evict) == s3 && Admitted(cfg, s2, [e2], key, evict) == 1;
    assert After(cfg, s1, [e1, e2], evict) == s3 && Admitted(cfg, s1, [e1, e2], key, evict) == 1;
    assert After(cfg, s0, [e0, e1, e2], evict) == s3 && Admitted(cfg, s0, [e0, e1, e2], key, evict) == 2;
    assert Timed([e2], e1.now) && End([e2], e1.now) == PERIOD + 1;
    assert Timed([e1, e2], e0.now) && End([e1, e2], e0.now) == PERIOD + 1;
  }

  lemma LastOfThree(cfg: Config, s: Buckets, key: string, evict: bool)
    requires cfg.burstSize > 0 && TokensToAdd(cfg, 1) == 0 && TokensToAdd(cfg, PERIOD + 1) >= cfg.burstSize
    requires s == if evict then map[] else map[key := Bucket(cfg.burstSize - 1, 0)]
    ensures Step(cfg, s, Request(key, PERIOD, PERIOD + 1), evict)
      == (map[key := Bucket(cfg.burstSize - 1, if evict then PERIOD else PERIOD + 1)], true)
  {
    hide TokensToAdd;
    var b := BucketOf(cfg, s, key, PERIOD);
    var r := Bucket(cfg.burstSize, if evict then PERIOD else PERIOD + 1);
    assert Refilled(cfg, b, PERIOD + 1) == r;
    assert s[key := Bucket(cfg.burstSize - 1, r.lastRefill)] == map[key := Bucket(cfg.burstSize - 1, r.lastRefill)];
  }

  /** The last request of that history is admitted exactly by the evicting limiter. */
  lemma LateRefillAdmits(cfg: Config, key: string, evict: bool)
    requires cfg.burstSize > 0 && EvictionIsHarmless(cfg) && !IsFast(cfg) && cfg.requestsPerMin > 0
    ensures Admitted(cfg, map[], LateRefill(cfg, key), key, evict) == cfg.burstSize + (if evict then 2 else 1)
    ensures Timed(LateRefill(cfg, key), 0)
  {
    hide Step, TokensToAdd;
    var t, again := PERIOD + 1, PERIOD + TokenTime(cfg);
    var b := Bucket(cfg.burstSize - 1, if evict then PERIOD else t);
    var first, burst, last := LateLookup(key), Requests(key, t, cfg.burstSize - 1), [Request(key, again, again)];
    LateLookupLeaves(cfg, key, evict);
    assert TokensToAdd(cfg, 1) == 0 && TokensToAdd(cfg, 0) == 0 by { SlowEarnsNothing(cfg); }
    RequestsTake(cfg, map[key := b], key, t, cfg.burstSize - 1, b, evict);
    Concatenated(cfg, map[], first, burst, key, evict);
    Concatenated(cfg, map[], first + burst, last, key, evict);
    TimedConcatenated(first, burst, 0);
    assert TokenTime(cfg) >= 2;
    TimedConcatenated(first + burst, last, 0);
    var empty: Buckets := map[key := Bucket(0, b.lastRefill)];
    assert After(cfg, map[], first + burst, evict) == empty;
    OnceMore(cfg, empty, key, again, evict);
  }

  lemma SlowEarnsNothing(cfg: Config)
    requires !IsFast(cfg)
    ensures TokensToAdd(cfg, 1) == 0 && TokensToAdd(cfg, 0) == 0
  {
  }

  /** An empty bucket admits a request iff the time since its refill earns a token. */
  lemma OnceMore(cfg: Config, s: Buckets, key: string, now: int, evict: bool)
    requires cfg.burstSize > 0 && key in s && s[key].tokens == 0
    ensures Admitted(cfg, s, [Request(key, now, now)], key, evict)
      == if TokensToAdd(cfg, now - s[key].lastRefill) > 0 then 1 else 0
  {
    hide TokensToAdd;
    assert [Request(key, now, now)][1..] == [];
  }

  /** Every slower limiter with harmless eviction: an explicit history on which eviction is observed. */
  lemma TwoReadingsObserveEviction(cfg: Config, key: string)
    requires cfg.burstSize > 0 && EvictionIsHarmless(cfg) && !IsFast(cfg)
    ensures cfg.requestsPerMin > 0 && Timed(LateRefill(cfg, key), 0)
    ensures Answers(cfg, map[], LateRefill(cfg, key), true) != Answers(cfg, map[], LateRefill(cfg, key), false)
  {
    var events := LateRefill(cfg, key);
    LateRefillAdmits(cfg, key, true);
    LateRefillAdmits(cfg, key, false);
    if Answers(cfg, map[], events, true) == Answers(cfg, map[], events, false) {
      AdmittedFromAnswers(cfg, map[], map[], events, key, true, false);
    }
  }

  ghost predicate NeverObserved(cfg: Config, events: seq<Event>, t: int) {
    Timed(events, t) ==> Answers(cfg, map[], events, true) == Answers(cfg, map[], events, false)
  }

  /** With the two readings of the code: no history shows eviction iff there are no bursts, or it is harmless
    * and a nanosecond earns a token. */
  lemma EvictionNeverObservedIff(cfg: Config)
    ensures cfg.burstSize <= 0 || (EvictionIsHarmless(cfg) && IsFast(cfg))
      <==> forall events, t :: NeverObserved(cfg, events, t)
  {
    if cfg.burstSize <= 0 || (EvictionIsHarmless(cfg) && IsFast(cfg)) {
      forall events, t ensures NeverObserved(cfg, events, t) {
        if Timed(events, t) {
          if cfg.burstSize > 0 {
            SameAnswers(cfg, map[], map[], events, t);
          } else {
            NothingAdmitted(cfg, map[], events, t, "", true);
            NothingAdmitted(cfg, map[], events, t, "", false);
          }
        }
      }
    } else if EvictionIsHarmless(cfg) {
      TwoReadingsObserveEviction(cfg, "");
      assert !NeverObserved(cfg, LateRefill(cfg, ""), 0);
    } else {
      TwoCyclesDiffer(cfg, "");
      CyclesAdmit(cfg, "", 2);
      assert !NeverObserved(cfg, Cycles(cfg, "", 2), 0);
    }
  }
}
