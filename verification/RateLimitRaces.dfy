/** What holds of the limiter when cleanups may run between a lookup and its draw, and what fails. */
module RateLimitRaces {
  import opened RateLimitModel
  import opened RateLimitTheorems
  import opened RateLimitThreads

  // Histories of whole requests are histories of one thread

  function ThreadedEvent(e: Event, key: string): seq<Action> {
    match e
    case Request(_, lookup, now) => [Lookup(0, key, lookup), Draw(0, now)]
    case Cleaned(now) => [Sweep(key, now, now)]
  }

  function Threaded(events: seq<Event>, key: string): seq<Action> {
    if events == [] then [] else ThreadedEvent(events[0], key) + Threaded(events[1..], key)
  }

  ghost predicate AboutKey(events: seq<Event>, key: string) {
    forall i :: 0 <= i < |events| && events[i].Request? ==> events[i].key == key
  }

  /** Nobody is inside, and the map holds the buckets of one key as the model of whole requests has them. */
  ghost predicate Mirrors(s: Limiter, b: Buckets, key: string) {
    && Coherent(s) && s.held == map[] && s.names.Keys == b.Keys <= {key}
    && (key in b ==> s.cells[s.names[key]].bucket == b[key])
  }

  lemma ConcatenatedActions(cfg: Config, s: Limiter, a: seq<Action>, b: seq<Action>, key: string, evict: bool)
    ensures Reached(cfg, s, a + b, evict) == Reached(cfg, Reached(cfg, s, a, evict), b, evict)
    ensures var first, rest := Counted(cfg, s, a, key, evict), Counted(cfg, Reached(cfg, s, a, evict), b, key, evict);
      Counted(cfg, s, a + b, key, evict) == Count(first.attached + rest.attached, first.detached + rest.detached)
    decreases |a|
  {
    if a == [] {
      assert a + b == b;
    } else {
      assert (a + b)[1..] == a[1..] + b;
      ConcatenatedActions(cfg, Perform(cfg, s, a[0], evict).0, a[1..], b, key, evict);
    }
  }

  function InsideAfter(inside: set<nat>, actions: seq<Action>): set<nat>
    decreases |actions|
  {
    if actions == [] then inside else InsideAfter(Inside(inside, actions[0]), actions[1..])
  }

  lemma {:induction false} HistoryConcatenated(a: seq<Action>, b: seq<Action>, inside: set<nat>, t: int)
    requires IsHistory(a, inside, t) && IsHistory(b, InsideAfter(inside, a), Finish(a, t))
    ensures IsHistory(a + b, inside, t) && Finish(a + b, t) == Finish(b, Finish(a, t))
    ensures InsideAfter(inside, a + b) == InsideAfter(InsideAfter(inside, a), b)
    decreases |a|
  {
    if a == [] {
      assert a + b == b;
    } else {
      assert (a + b)[1..] == a[1..] + b;
      HistoryConcatenated(a[1..], b, Inside(inside, a[0]), a[0].now);
    }
  }

  lemma ThreadedStep(cfg: Config, s: Limiter, b: Buckets, e: Event, key: string, evict: bool)
    requires Mirrors(s, b, key) && (e.Request? ==> e.key == key)
    ensures var (b', ok) := Step(cfg, b, e, evict);
      && Mirrors(Reached(cfg, s, ThreadedEvent(e, key), evict), b', key)
      && Counted(cfg, s, ThreadedEvent(e, key), key, evict) == Count(if ok then 1 else 0, 0)
  {
    hide Take;
    match e
    case Request(_, lookup, now) =>
      var first, second := Lookup(0, key, lookup), Draw(0, now);
      var s1 := Perform(cfg, s, first, evict).0;
      assert [first, second][1..] == [second] && [second][1..] == [];
      assert s1.held == map[0 := s1.names[key]] && IsAttached(s1, s1.names[key]);
      assert s1.cells[s1.names[key]].bucket == BucketOf(cfg, b, key, lookup);
      var s2 := Perform(cfg, s1, second, evict).0;
      assert s2.held == map[];
      assert Reached(cfg, s1, [second], evict) == s2;
      var ok := Perform(cfg, s1, second, evict).1;
      assert CountDraw(s1, second, ok, key) == Count(if ok then 1 else 0, 0);
      assert Counted(cfg, s2, [], key, evict) == Count(0, 0);
      assert Counted(cfg, s1, [second], key, evict) == Count(if ok then 1 else 0, 0);
    case Cleaned(now) =>
      assert [Sweep(key, now, now)][1..] == [];
  }

  /** The one thread answers, admits and ends up as the model of whole requests says. */
  lemma {:induction false} ThreadedRun(cfg: Config, s: Limiter, b: Buckets, events: seq<Event>, key: string,
      evict: bool)
    requires Mirrors(s, b, key) && AboutKey(events, key)
    ensures Mirrors(Reached(cfg, s, Threaded(events, key), evict), After(cfg, b, events, evict), key)
    ensures Counted(cfg, s, Threaded(events, key), key, evict) == Count(Admitted(cfg, b, events, key, evict), 0)
    decreases |events|
  {
    hide Mirrors, Perform, Step;
    if events != [] {
      var e := events[0];
      ThreadedStep(cfg, s, b, e, key, evict);
      assert e.Cleaned? ==> !Step(cfg, b, e, evict).1 by { CleaningAdmitsNothing(cfg, b, e, evict); }
      var s' := Reached(cfg, s, ThreadedEvent(e, key), evict);
      ThreadedRun(cfg, s', Step(cfg, b, e, evict).0, events[1..], key, evict);
      ConcatenatedActions(cfg, s, ThreadedEvent(e, key), Threaded(events[1..], key), key, evict);
    }
  }

  lemma CleaningAdmitsNothing(cfg: Config, b: Buckets, e: Event, evict: bool)
    ensures e.Cleaned? ==> !Step(cfg, b, e, evict).1
  {
  }

  /** One action before a history. */
  lemma Happens(a: Action, rest: seq<Action>, inside: set<nat>, t: int)
    requires MayHappen(a, inside, t) && IsHistory(rest, Inside(inside, a), a.now)
    ensures IsHistory([a] + rest, inside, t) && Finish([a] + rest, t) == Finish(rest, a.now)
    ensures InsideAfter(inside, [a] + rest) == InsideAfter(Inside(inside, a), rest)
  {
    assert ([a] + rest)[1..] == rest;
  }

  lemma ThreadedEventIsHistory(e: Event, key: string, t: int)
    requires Timed([e], t)
    ensures var a := ThreadedEvent(e, key); IsHistory(a, {}, t) && Finish(a, t) == e.now && InsideAfter({}, a) == {}
  {
    match e
    case Request(_, lookup, now) =>
      var first, second := Lookup(0, key, lookup), Draw(0, now);
      assert Inside({}, first) == {0} && Inside({0}, second) == {};
      Happens(second, [], {0}, lookup);
      Happens(first, [second], {}, t);
    case Cleaned(now) =>
      assert [Sweep(key, now, now)][1..] == [];
  }

  lemma {:induction false} ThreadedIsHistory(events: seq<Event>, key: string, t: int)
    requires Timed(events, t)
    ensures var a := Threaded(events, key);
      IsHistory(a, {}, t) && Finish(a, t) == End(events, t) && InsideAfter({}, a) == {}
    decreases |events|
  {
    if events != [] {
      ThreadedEventIsHistory(events[0], key, t);
      ThreadedIsHistory(events[1..], key, events[0].now);
      HistoryConcatenated(ThreadedEvent(events[0], key), Threaded(events[1..], key), {}, t);
    }
  }

  // Admissions can be read off the answers

  /** The same threads are inside, with buckets of the same keys. */
  ghost predicate SameHolders(s: Limiter, s': Limiter) {
    && Coherent(s) && Coherent(s') && s.held.Keys == s'.held.Keys
    && forall t :: t in s.held ==> s.cells[s.held[t]].key == s'.cells[s'.held[t]].key
  }

  lemma SameHoldersDraw(cfg: Config, s: Limiter, s': Limiter, thread: nat, now: int)
    requires SameHolders(s, s')
    ensures SameHolders(Perform(cfg, s, Draw(thread, now), true).0, Perform(cfg, s', Draw(thread, now), false).0)
  {
    hide Take;
    var n, n' := Perform(cfg, s, Draw(thread, now), true).0, Perform(cfg, s', Draw(thread, now), false).0;
    assert forall id :: 0 <= id < |s.cells| ==> n.cells[id].key == s.cells[id].key;
    assert forall id :: 0 <= id < |s'.cells| ==> n'.cells[id].key == s'.cells[id].key;
  }

  lemma LookupHolds(cfg: Config, s: Limiter, thread: nat, key: string, now: int, evict: bool)
    requires Coherent(s)
    ensures var n := Perform(cfg, s, Lookup(thread, key, now), evict).0;
      && Coherent(n) && n.held.Keys == s.held.Keys + {thread} && n.cells[n.held[thread]].key == key
      && forall t :: t in s.held && t != thread ==> n.cells[n.held[t]].key == s.cells[s.held[t]].key
  {
  }

  lemma SameHoldersStep(cfg: Config, s: Limiter, s': Limiter, a: Action)
    requires SameHolders(s, s')
    ensures SameHolders(Perform(cfg, s, a, true).0, Perform(cfg, s', a, false).0)
  {
    match a
    case Lookup(thread, key, now) =>
      LookupHolds(cfg, s, thread, key, now, true);
      LookupHolds(cfg, s', thread, key, now, false);
      hide Perform;
    case Draw(thread, now) => SameHoldersDraw(cfg, s, s', thread, now);
    case Sweep(_, _, _) =>
  }

  lemma SameHoldersCount(s: Limiter, s': Limiter, a: Action, ok: bool, key: string)
    requires SameHolders(s, s')
    ensures Total(CountDraw(s, a, ok, key)) == Total(CountDraw(s', a, ok, key))
  {
  }

  lemma {:induction false} TotalFromReplies(cfg: Config, s: Limiter, s': Limiter, actions: seq<Action>, key: string)
    requires SameHolders(s, s') && Replies(cfg, s, actions, true) == Replies(cfg, s', actions, false)
    ensures Total(Counted(cfg, s, actions, key, true)) == Total(Counted(cfg, s', actions, key, false))
    decreases |actions|
  {
    hide SameHolders, Perform, CountDraw;
    if actions != [] {
      var a := actions[0];
      var r, r' := Replies(cfg, s, actions, true), Replies(cfg, s', actions, false);
      assert r[0] == r'[0] && r[1..] == r'[1..];
      SameHoldersStep(cfg, s, s', a);
      SameHoldersCount(s, s', a, r[0], key);
      TotalFromReplies(cfg, Perform(cfg, s, a, true).0, Perform(cfg, s', a, false).0, actions[1..], key);
    }
  }

  // One thread caught inside by a cleanup

  /** A request; long after, another thread looks up the same bucket, and a cleanup takes it out of the map. */
  function CaughtInside(key: string): seq<Action> {
    [Lookup(0, key, 0), Draw(0, 0), Lookup(1, key, PERIOD), Sweep(key, PERIOD, PERIOD)]
  }

  /** The caught thread draws, and at the same instant come as many requests as the burst allows. */
  function Instant(cfg: Config, key: string): seq<Action> {
    [Draw(1, PERIOD)] + Threaded(Requests(key, PERIOD, Burst(cfg)), key)
  }

  lemma CaughtIsHistory(cfg: Config, key: string)
    ensures IsHistory(CaughtInside(key) + Instant(cfg, key), {}, 0)
    ensures Finish(CaughtInside(key) + Instant(cfg, key), 0) == PERIOD
  {
    var c, d := CaughtInside(key), [Draw(1, PERIOD)];
    assert Inside({}, c[0]) == {0} && Inside({0}, c[1]) == {} && Inside({}, c[2]) == {1} && Inside({1}, d[0]) == {};
    Happens(c[3], [], {1}, PERIOD);
    Happens(c[2], [c[3]], {}, 0);
    Happens(c[1], [c[2], c[3]], {0}, 0);
    Happens(c[0], [c[1], c[2], c[3]], {}, 0);
    Happens(d[0], [], {1}, PERIOD);
    RequestsAreTimed(key, PERIOD, Burst(cfg));
    ThreadedIsHistory(Requests(key, PERIOD, Burst(cfg)), key, PERIOD);
    HistoryConcatenated(d, Threaded(Requests(key, PERIOD, Burst(cfg)), key), {1}, PERIOD);
    HistoryConcatenated(c, Instant(cfg, key), {}, 0);
  }

  lemma {:induction false} RequestsAreTimed(key: string, t: int, n: nat)
    ensures Timed(Requests(key, t, n), t) && End(Requests(key, t, n), t) == t && AboutKey(Requests(key, t, n), key)
  {
    if n > 0 {
      assert Requests(key, t, n)[1..] == Requests(key, t, n - 1);
      RequestsAreTimed(key, t, n - 1);
    }
  }

  /** Where the history leaves the buckets: the caught thread holds the old one, and the map has it only
    * without eviction. */
  lemma CaughtLeaves(cfg: Config, key: string, evict: bool)
    requires cfg.burstSize > 0
    ensures Reached(cfg, NO_BUCKETS, CaughtInside(key), evict) ==
      Limiter([Cell(key, Bucket(cfg.burstSize - 1, 0))], if evict then map[] else map[key := 0], map[1 := 0])
  {
    var c := CaughtInside(key);
    var full, used := Cell(key, Bucket(cfg.burstSize, 0)), Cell(key, Bucket(cfg.burstSize - 1, 0));
    var s1 := Limiter([full], map[key := 0], map[0 := 0]);
    var s2 := Limiter([used], map[key := 0], map[]);
    var s3 := Limiter([used], map[key := 0], map[1 := 0]);
    var s4 := Limiter([used], if evict then map[] else map[key := 0], map[1 := 0]);
    assert Perform(cfg, NO_BUCKETS, c[0], evict).0 == s1;
    assert Refilled(cfg, full.bucket, 0) == full.bucket;
    assert Perform(cfg, s1, c[1], evict).0 == s2 by {
      assert s1.cells[0 := used] == [used] && s1.held - {0} == map[];
    }
    assert Perform(cfg, s2, c[2], evict).0 == s3;
    assert Perform(cfg, s3, c[3], evict).0 == s4 by {
      assert map[key := 0] - {key} == map[];
    }
    hide Perform;
    ReachedInFour(cfg, NO_BUCKETS, c, evict, s1, s2, s3, s4);
  }

  lemma ReachedInFour(cfg: Config, s: Limiter, c: seq<Action>, evict: bool, s1: Limiter, s2: Limiter, s3: Limiter,
      s4: Limiter)
    requires |c| == 4 && Perform(cfg, s, c[0], evict).0 == s1 && Perform(cfg, s1, c[1], evict).0 == s2
    requires Perform(cfg, s2, c[2], evict).0 == s3 && Perform(cfg, s3, c[3], evict).0 == s4
    ensures Reached(cfg, s, c, evict) == s4
  {
    hide Perform;
    assert c[1..] == [c[1], c[2], c[3]] && c[1..][1..] == [c[2], c[3]] && c[1..][1..][1..] == [c[3]]
      && c[1..][1..][1..][1..] == [];
    assert Reached(cfg, s3, [c[3]], evict) == s4;
    assert Reached(cfg, s2, [c[2], c[3]], evict) == s4;
    assert Reached(cfg, s1, c[1..], evict) == s4;
  }

  /** The draw of the caught thread. */
  lemma CaughtDraws(cfg: Config, key: string, evict: bool)
    requires cfg.burstSize > 0 && EvictionIsHarmless(cfg)
    ensures var s := Reached(cfg, NO_BUCKETS, CaughtInside(key), evict);
      var (s', ok) := Perform(cfg, s, Draw(1, PERIOD), evict);
      && ok && Mirrors(s', if evict then map[] else map[key := Bucket(cfg.burstSize - 1, PERIOD)], key)
      && Total(CountDraw(s, Draw(1, PERIOD), ok, key)) == 1
  {
    CaughtLeaves(cfg, key, evict);
    var s := Reached(cfg, NO_BUCKETS, CaughtInside(key), evict);
    IdleIsFull(cfg, Bucket(cfg.burstSize - 1, 0), PERIOD);
    hide Reached, Refilled;
    assert Take(cfg, Bucket(cfg.burstSize - 1, 0), PERIOD) == (Bucket(cfg.burstSize - 1, PERIOD), true);
    assert map[1 := 0] - {1} == map[];
  }

  /** At that instant: a burst and one more when the bucket was evicted, a burst otherwise. */
  lemma InstantAdmits(cfg: Config, key: string, evict: bool)
    requires cfg.burstSize > 0 && EvictionIsHarmless(cfg)
    ensures var s := Reached(cfg, NO_BUCKETS, CaughtInside(key), evict);
      Total(Counted(cfg, s, Instant(cfg, key), key, evict)) == cfg.burstSize + (if evict then 1 else 0)
  {
    var s, n := Reached(cfg, NO_BUCKETS, CaughtInside(key), evict), cfg.burstSize;
    var draw, events := Draw(1, PERIOD), Requests(key, PERIOD, n);
    var s' := Perform(cfg, s, draw, evict).0;
    var b: Buckets := if evict then map[] else map[key := Bucket(n - 1, PERIOD)];
    CaughtDraws(cfg, key, evict);
    RequestsAreTimed(key, PERIOD, n);
    hide Perform, CountDraw, Mirrors, Reached;
    ThreadedRun(cfg, s', b, events, key, evict);
    if evict {
      FreshBurst(cfg, key, PERIOD, evict);
    } else {
      OneTooMany(cfg, key, PERIOD, n);
    }
    assert Instant(cfg, key)[1..] == Threaded(events, key) && Instant(cfg, key)[0] == draw;
  }

  lemma OneTooMany(cfg: Config, key: string, t: int, n: nat)
    requires n > 0 && cfg.burstSize == n
    ensures Admitted(cfg, map[key := Bucket(n - 1, t)], Requests(key, t, n), key, false) == n - 1
  {
    var b: Buckets := map[key := Bucket(n - 1, t)];
    RequestsTake(cfg, b, key, t, n - 1, b[key], false);
    assert Requests(key, t, n) == Requests(key, t, n - 1) + [Request(key, t, t)];
    Concatenated(cfg, b, Requests(key, t, n - 1), [Request(key, t, t)], key, false);
    OnceMore(cfg, b[key := Bucket(0, t)], key, t, false);
  }

  // The rate bound on all interleavings

  lemma {:induction false} HistorySplit(a: seq<Action>, b: seq<Action>, inside: set<nat>, t: int)
    requires IsHistory(a + b, inside, t)
    ensures IsHistory(a, inside, t) && IsHistory(b, InsideAfter(inside, a), Finish(a, t))
    decreases |a|
  {
    if a == [] {
      assert a + b == b;
    } else {
      assert (a + b)[1..] == a[1..] + b;
      HistorySplit(a[1..], b, Inside(inside, a[0]), a[0].now);
    }
  }

  lemma {:induction false} ReachedIsSound(cfg: Config, s: Limiter, actions: seq<Action>, inside: set<nat>, t: int,
      evict: bool)
    requires Sound(cfg, s, inside, t) && IsHistory(actions, inside, t)
    ensures Sound(cfg, Reached(cfg, s, actions, evict), InsideAfter(inside, actions), Finish(actions, t))
    decreases |actions|
  {
    hide Sound, Perform, MayHappen;
    if actions != [] {
      LaterAction(actions, inside, t);
      PerformKeepsSound(cfg, s, actions[0], inside, t, evict);
      ReachedIsSound(cfg, Perform(cfg, s, actions[0], evict).0, actions[1..], Inside(inside, actions[0]),
        actions[0].now, evict);
    }
  }

  /** What the rate allows in a window, in tokens times MINUTE. */
  function Allowance(cfg: Config, window: seq<Action>, t: int): int
    requires window != []
  {
    (Burst(cfg) + 1) * MINUTE + (Finish(window, t) - window[0].now) * Rate(cfg)
  }

  /** The admissions in a window of a history. */
  function WindowCount(cfg: Config, before: seq<Action>, window: seq<Action>, key: string): Count {
    Counted(cfg, Reached(cfg, NO_BUCKETS, before, true), window, key, true)
  }

  ghost predicate IsWindow(before: seq<Action>, window: seq<Action>, t: int) {
    window != [] && IsHistory(before + window, {}, t)
  }

  ghost predicate MapWithinRate(cfg: Config, before: seq<Action>, window: seq<Action>, t: int, key: string) {
    IsWindow(before, window, t) ==> WindowCount(cfg, before, window, key).attached * MINUTE < Allowance(cfg, window, t)
  }

  ghost predicate AllWithinRate(cfg: Config, before: seq<Action>, window: seq<Action>, t: int, key: string) {
    IsWindow(before, window, t) ==> Total(WindowCount(cfg, before, window, key)) * MINUTE < Allowance(cfg, window, t)
  }

  lemma MapKeepsRate(cfg: Config, before: seq<Action>, window: seq<Action>, t: int, key: string)
    requires EvictionIsHarmless(cfg) && IsWindow(before, window, t)
    ensures WindowCount(cfg, before, window, key).attached * MINUTE < Allowance(cfg, window, t)
  {
    HistorySplit(before, window, {}, t);
    ReachedIsSound(cfg, NO_BUCKETS, before, {}, t, true);
    AttachedWindow(cfg, Reached(cfg, NO_BUCKETS, before, true), window, InsideAfter({}, before),
      Finish(before, t), key, true);
    SameFinish(window, Finish(before, t), t);
  }

  lemma SameFinish(actions: seq<Action>, t: int, t': int)
    requires actions != []
    ensures Finish(actions, t) == Finish(actions, t')
  {
  }

  /** The history of whole requests that exceeds the rate, as one of the only thread. */
  lemma ThreadedCyclesExceedRate(cfg: Config, key: string)
    requires !EvictionIsHarmless(cfg)
    ensures !MapWithinRate(cfg, [], Threaded(Cycles(cfg, key, MINUTE + 1), key), 0, key)
    ensures !AllWithinRate(cfg, [], Threaded(Cycles(cfg, key, MINUTE + 1), key), 0, key)
  {
    var events := Cycles(cfg, key, MINUTE + 1);
    var window := Threaded(events, key);
    CyclesExceedRate(cfg, key);
    CyclesAdmit(cfg, key, MINUTE + 1);
    CyclesAreAbout(cfg, key, MINUTE + 1);
    hide Cycles;
    assert [] + events == events && [] + window == window;
    ThreadedIsHistory(events, key, 0);
    ThreadedRun(cfg, NO_BUCKETS, map[], events, key, true);
    assert window[0] == ThreadedEvent(events[0], key)[0];
  }

  lemma {:induction false} CyclesAreAbout(cfg: Config, key: string, c: nat)
    ensures AboutKey(Cycles(cfg, key, c), key)
  {
    if c > 0 {
      CyclesAreAbout(cfg, key, c - 1);
    }
  }

  /** On all interleavings the buckets in the map keep to the rate, iff eviction is harmless. */
  lemma MapWithinRateIff(cfg: Config)
    ensures EvictionIsHarmless(cfg) <==> forall before, window, t, key :: MapWithinRate(cfg, before, window, t, key)
  {
    hide WindowCount, Allowance, IsWindow;
    if EvictionIsHarmless(cfg) {
      forall before, window, t, key ensures MapWithinRate(cfg, before, window, t, key) {
        if IsWindow(before, window, t) {
          MapKeepsRate(cfg, before, window, t, key);
        }
      }
    } else {
      ThreadedCyclesExceedRate(cfg, "");
    }
  }

  /** All admissions keep to the rate but for one of every thread that holds a bucket taken out of the map. */
  lemma CaughtThreadsExceedRate(cfg: Config, before: seq<Action>, window: seq<Action>, t: int, key: string)
    requires EvictionIsHarmless(cfg) && IsWindow(before, window, t)
    ensures var s := Reached(cfg, NO_BUCKETS, before, true);
      && Coherent(s)
      && Total(WindowCount(cfg, before, window, key)) * MINUTE
           < Allowance(cfg, window, t) + (|Detached(s, key)| + Caught(cfg, s, window, key)) * MINUTE
  {
    var s, c := Reached(cfg, NO_BUCKETS, before, true), WindowCount(cfg, before, window, key);
    HistorySplit(before, window, {}, t);
    ReachedIsSound(cfg, NO_BUCKETS, before, {}, t, true);
    MapKeepsRate(cfg, before, window, t, key);
    DetachedAreCaught(cfg, s, window, InsideAfter({}, before), Finish(before, t), key);
    MulMonotone(c.detached, |Detached(s, key)| + Caught(cfg, s, window, key), MINUTE);
    Distribute(c.attached, c.detached, MINUTE);
  }

  /** One caught thread, and more is admitted at one instant than the bound allows. */
  lemma OneCaughtThreadIsTooMany(cfg: Config, key: string)
    requires cfg.burstSize > 0 && EvictionIsHarmless(cfg)
    ensures !AllWithinRate(cfg, CaughtInside(key), Instant(cfg, key), 0, key)
  {
    CaughtIsHistory(cfg, key);
    InstantAdmits(cfg, key, true);
    RequestsAreTimed(key, PERIOD, cfg.burstSize);
    ThreadedIsHistory(Requests(key, PERIOD, cfg.burstSize), key, PERIOD);
    var w := Instant(cfg, key);
    assert w[1..] == Threaded(Requests(key, PERIOD, cfg.burstSize), key) && w[0] == Draw(1, PERIOD);
    assert Finish(w, 0) == PERIOD;
    hide Instant, CaughtInside;
    assert Allowance(cfg, w, 0) == (cfg.burstSize + 1) * MINUTE by {
      assert 0 * Rate(cfg) == 0;
    }
  }

  /** On all interleavings all admissions keep to the rate, iff there are no bursts and hence none. */
  lemma AllWithinRateIff(cfg: Config)
    ensures cfg.burstSize <= 0 <==> forall before, window, t, key :: AllWithinRate(cfg, before, window, t, key)
  {
    hide Allowance, IsWindow, Counted, Reached;
    if cfg.burstSize <= 0 {
      forall before, window, t, key ensures AllWithinRate(cfg, before, window, t, key) {
        if IsWindow(before, window, t) {
          MapKeepsRate(cfg, before, window, t, key);
          NothingEver(cfg, before, window, t, key);
        }
      }
    } else if EvictionIsHarmless(cfg) {
      OneCaughtThreadIsTooMany(cfg, "");
    } else {
      ThreadedCyclesExceedRate(cfg, "");
    }
  }

  lemma NothingEver(cfg: Config, before: seq<Action>, window: seq<Action>, t: int, key: string)
    requires cfg.burstSize <= 0 && IsWindow(before, window, t)
    ensures WindowCount(cfg, before, window, key) == Count(0, 0)
  {
    HistorySplit(before, window, {}, t);
    ReachedIsSound(cfg, NO_BUCKETS, before, {}, t, true);
    NoBurstNoAdmission(cfg, Reached(cfg, NO_BUCKETS, before, true), window, InsideAfter({}, before),
      Finish(before, t), key, true);
  }

  // Eviction on all interleavings

  ghost predicate Unnoticed(cfg: Config, actions: seq<Action>, t: int) {
    IsHistory(actions, {}, t) ==> Replies(cfg, NO_BUCKETS, actions, true) == Replies(cfg, NO_BUCKETS, actions, false)
  }

  /** A caught thread, and the request after the burst is answered differently; all of it at two clock values. */
  lemma CaughtThreadNotices(cfg: Config, key: string)
    requires cfg.burstSize > 0 && EvictionIsHarmless(cfg)
    ensures !Unnoticed(cfg, CaughtInside(key) + Instant(cfg, key), 0)
  {
    var c, w := CaughtInside(key), Instant(cfg, key);
    CaughtIsHistory(cfg, key);
    InstantAdmits(cfg, key, true);
    InstantAdmits(cfg, key, false);
    ConcatenatedActions(cfg, NO_BUCKETS, c, w, key, true);
    ConcatenatedActions(cfg, NO_BUCKETS, c, w, key, false);
    FirstRequestIsAdmitted(cfg, key, true);
    FirstRequestIsAdmitted(cfg, key, false);
    hide Instant, CaughtInside, Reached, Counted;
    if Replies(cfg, NO_BUCKETS, c + w, true) == Replies(cfg, NO_BUCKETS, c + w, false) {
      TotalFromReplies(cfg, NO_BUCKETS, NO_BUCKETS, c + w, key);
    }
  }

  lemma FirstRequestIsAdmitted(cfg: Config, key: string, evict: bool)
    requires cfg.burstSize > 0
    ensures Total(Counted(cfg, NO_BUCKETS, CaughtInside(key), key, evict)) == 1
  {
    var c, request := CaughtInside(key), Request(key, 0, 0);
    ThreadedStep(cfg, NO_BUCKETS, map[], request, key, evict);
    assert c == ThreadedEvent(request, key) + c[2..];
    ConcatenatedActions(cfg, NO_BUCKETS, ThreadedEvent(request, key), c[2..], key, evict);
    var s := Reached(cfg, NO_BUCKETS, ThreadedEvent(request, key), evict);
    assert c[2..][1..] == [c[3]] && [c[3]][1..] == [];
    hide Perform;
    assert Counted(cfg, Perform(cfg, s, c[2], evict).0, [c[3]], key, evict) == Count(0, 0);
    assert Counted(cfg, s, c[2..], key, evict) == Count(0, 0);
  }

  lemma ThreadedCyclesNotice(cfg: Config, key: string)
    requires !EvictionIsHarmless(cfg)
    ensures !Unnoticed(cfg, Threaded(Cycles(cfg, key, 2), key), 0)
  {
    var events := Cycles(cfg, key, 2);
    var actions := Threaded(events, key);
    CyclesAdmit(cfg, key, 2);
    CyclesAreAbout(cfg, key, 2);
    TwoCyclesAdmitLess(cfg, key);
    hide Cycles;
    ThreadedIsHistory(events, key, 0);
    ThreadedRun(cfg, NO_BUCKETS, map[], events, key, true);
    ThreadedRun(cfg, NO_BUCKETS, map[], events, key, false);
    if Replies(cfg, NO_BUCKETS, actions, true) == Replies(cfg, NO_BUCKETS, actions, false) {
      TotalFromReplies(cfg, NO_BUCKETS, NO_BUCKETS, actions, key);
    }
  }

  /** On all interleavings no answer shows eviction, iff there are no bursts. */
  lemma EvictionUnnoticedIff(cfg: Config)
    ensures cfg.burstSize <= 0 <==> forall actions, t :: Unnoticed(cfg, actions, t)
  {
    if cfg.burstSize <= 0 {
      forall actions, t ensures Unnoticed(cfg, actions, t) {
        if IsHistory(actions, {}, t) {
          NoBurstNoAdmission(cfg, NO_BUCKETS, actions, {}, t, "", true);
          NoBurstNoAdmission(cfg, NO_BUCKETS, actions, {}, t, "", false);
        }
      }
    } else if EvictionIsHarmless(cfg) {
      CaughtThreadNotices(cfg, "");
    } else {
      ThreadedCyclesNotice(cfg, "");
    }
  }
}
