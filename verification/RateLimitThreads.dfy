/**
 * The limiter with many threads: a request looks its bucket up in one critical section and draws from it in
 * another one. In between a cleanup can take the bucket out of the map; the thread still draws from it.
 */
module RateLimitThreads {
  import opened RateLimitModel

  /** A bucket, and the key it was created for. */
  datatype Cell = Cell(key: string, bucket: Bucket)

  /** All buckets ever created, the map from keys to buckets, and the buckets that threads inside hold. */
  datatype Limiter = Limiter(cells: seq<Cell>, names: map<string, nat>, held: map<nat, nat>)

  /** One critical section. A cleanup sweeps the keys one by one, with a clock reading that may be old by then. */
  datatype Action =
    | Lookup(thread: nat, key: string, now: int)
    | Draw(thread: nat, now: int)
    | Sweep(key: string, read: int, now: int)

  const NO_BUCKETS := Limiter([], map[], map[])

  predicate Coherent(s: Limiter) {
    && (forall k :: k in s.names ==> s.names[k] < |s.cells| && s.cells[s.names[k]].key == k)
    && (forall t :: t in s.held ==> s.held[t] < |s.cells|)
  }

  /** The bucket is the one in the map. */
  predicate IsAttached(s: Limiter, id: nat)
    requires id < |s.cells|
  {
    s.cells[id].key in s.names && s.names[s.cells[id].key] == id
  }

  /** One critical section, and the answer of a draw. A thread is inside from its lookup to its draw. */
  function Perform(cfg: Config, s: Limiter, a: Action, evict: bool): (Limiter, bool) {
    match a
    case Lookup(thread, key, now) =>
      if key in s.names then (s.(held := s.held[thread := s.names[key]]), false)
      else
        var id := |s.cells|;
        (Limiter(s.cells + [Cell(key, Bucket(cfg.burstSize, now))], s.names[key := id], s.held[thread := id]), false)
    case Draw(thread, now) =>
      if thread !in s.held || s.held[thread] >= |s.cells| then (s, false)
      else
        var id := s.held[thread];
        var (b, ok) := Take(cfg, s.cells[id].bucket, now);
        (s.(cells := s.cells[id := Cell(s.cells[id].key, b)], held := s.held - {thread}), ok)
    case Sweep(key, read, _) =>
      if evict && key in s.names && s.names[key] < |s.cells| && s.cells[s.names[key]].bucket.lastRefill < read - IDLE
      then (s.(names := s.names - {key}), false)
      else (s, false)
  }

  function Reached(cfg: Config, s: Limiter, actions: seq<Action>, evict: bool): Limiter
    decreases |actions|
  {
    if actions == [] then s else Reached(cfg, Perform(cfg, s, actions[0], evict).0, actions[1..], evict)
  }

  function Replies(cfg: Config, s: Limiter, actions: seq<Action>, evict: bool): seq<bool>
    decreases |actions|
  {
    if actions == [] then []
    else
      var (s', ok) := Perform(cfg, s, actions[0], evict);
      [ok] + Replies(cfg, s', actions[1..], evict)
  }

  /** Admissions of a key, from the bucket in the map and from buckets that were taken out of it. */
  datatype Count = Count(attached: nat, detached: nat)

  function Total(c: Count): nat { c.attached + c.detached }

  function CountDraw(s: Limiter, a: Action, ok: bool, key: string): Count {
    if ok && a.Draw? && a.thread in s.held && s.held[a.thread] < |s.cells| && s.cells[s.held[a.thread]].key == key then
      if IsAttached(s, s.held[a.thread]) then Count(1, 0) else Count(0, 1)
    else Count(0, 0)
  }

  function Counted(cfg: Config, s: Limiter, actions: seq<Action>, key: string, evict: bool): Count
    decreases |actions|
  {
    if actions == [] then Count(0, 0)
    else
      var (s', ok) := Perform(cfg, s, actions[0], evict);
      var first, rest := CountDraw(s, actions[0], ok, key), Counted(cfg, s', actions[1..], key, evict);
      Count(first.attached + rest.attached, first.detached + rest.detached)
  }

  function Inside(inside: set<nat>, a: Action): set<nat> {
    match a
    case Lookup(thread, _, _) => inside + {thread}
    case Draw(thread, _) => inside - {thread}
    case Sweep(_, _, _) => inside
  }

  /** The clock does not run backwards from time t on, and every thread looks up before it draws. */
  predicate MayHappen(a: Action, inside: set<nat>, t: int) {
    t <= a.now && (a.Lookup? ==> a.thread !in inside) && (a.Draw? ==> a.thread in inside)
      && (a.Sweep? ==> a.read <= a.now)
  }

  predicate IsHistory(actions: seq<Action>, inside: set<nat>, t: int)
    decreases |actions|
  {
    actions == [] || (MayHappen(actions[0], inside, t)
      && IsHistory(actions[1..], Inside(inside, actions[0]), actions[0].now))
  }

  function Finish(actions: seq<Action>, t: int): int
    decreases |actions|
  {
    if actions == [] then t else Finish(actions[1..], actions[0].now)
  }

  // Credit

  /** Buckets hold between 0 and burst tokens and were refilled in the past; threads inside hold buckets. */
  ghost predicate Sound(cfg: Config, s: Limiter, inside: set<nat>, t: int) {
    && Coherent(s) && s.held.Keys == inside
    && forall id :: 0 <= id < |s.cells| ==> SoundBucket(cfg, s.cells[id].bucket, t)
  }

  predicate SoundBucket(cfg: Config, b: Bucket, t: int) {
    b.lastRefill <= t && b.tokens <= cfg.burstSize && (cfg.burstSize >= 0 ==> b.tokens >= 0)
  }

  lemma PerformKeepsSound(cfg: Config, s: Limiter, a: Action, inside: set<nat>, t: int, evict: bool)
    requires Sound(cfg, s, inside, t) && MayHappen(a, inside, t)
    ensures Sound(cfg, Perform(cfg, s, a, evict).0, Inside(inside, a), a.now)
  {
  }

  function BucketCredit(cfg: Config, b: Bucket, t: int): int { b.tokens * MINUTE + (t - b.lastRefill) * Rate(cfg) }

  /** What the bucket in the map could spend at time t; a missing one counts as full. */
  function Credit(cfg: Config, s: Limiter, key: string, t: int): int
    requires Coherent(s)
  {
    if key in s.names then BucketCredit(cfg, s.cells[s.names[key]].bucket, t) else Burst(cfg) * MINUTE
  }

  lemma CreditGrows(cfg: Config, b: Bucket, t: int, now: int)
    requires t <= now
    ensures BucketCredit(cfg, b, now) == BucketCredit(cfg, b, t) + (now - t) * Rate(cfg) && (now - t) * Rate(cfg) >= 0
  {
    MulMonotone(0, now - t, Rate(cfg));
    Distribute(t - b.lastRefill, now - t, Rate(cfg));
  }

  lemma TakeSpends(cfg: Config, b: Bucket, now: int)
    requires b.lastRefill <= now
    ensures var (b', ok) := Take(cfg, b, now);
      BucketCredit(cfg, b', now) + (if ok then MINUTE else 0) <= BucketCredit(cfg, b, now)
  {
    RefillSpendsTime(cfg, b, now);
    Distribute(Refilled(cfg, b, now).tokens - 1, 1, MINUTE);
  }

  /** An admission from the bucket in the map costs a token of credit; otherwise credit grows with time at the
    * rate, or less. */
  lemma PerformSpendsCredit(cfg: Config, s: Limiter, a: Action, inside: set<nat>, t: int, key: string, evict: bool)
    requires Sound(cfg, s, inside, t) && MayHappen(a, inside, t) && cfg.burstSize > 0
      && (evict ==> EvictionIsHarmless(cfg))
    ensures Coherent(Perform(cfg, s, a, evict).0)
    ensures var (s', ok) := Perform(cfg, s, a, evict);
      Credit(cfg, s', key, a.now) + CountDraw(s, a, ok, key).attached * MINUTE
        <= Credit(cfg, s, key, t) + (a.now - t) * Rate(cfg)
  {
    PerformKeepsSound(cfg, s, a, inside, t, evict);
    MulMonotone(0, a.now - t, Rate(cfg));
    if key in s.names {
      CreditGrows(cfg, s.cells[s.names[key]].bucket, t, a.now);
    }
    match a
    case Lookup(thread, k, now) =>
    case Draw(thread, now) => TakeSpends(cfg, s.cells[s.held[thread]].bucket, now);
    case Sweep(k, read, now) =>
      if k == key && key in s.names && evict && s.cells[s.names[key]].bucket.lastRefill < read - IDLE {
        var b := s.cells[s.names[key]].bucket;
        IdleIsWorthABurst(cfg, now - b.lastRefill);
        MulMonotone(0, b.tokens, MINUTE);
      }
  }

  lemma {:induction false} HistorySpendsCredit(cfg: Config, s: Limiter, actions: seq<Action>, inside: set<nat>, t: int,
      key: string, evict: bool)
    requires Sound(cfg, s, inside, t) && IsHistory(actions, inside, t)
    requires cfg.burstSize > 0 && (evict ==> EvictionIsHarmless(cfg))
    ensures Coherent(Reached(cfg, s, actions, evict)) && Finish(actions, t) >= t
    ensures Credit(cfg, Reached(cfg, s, actions, evict), key, Finish(actions, t))
      + Counted(cfg, s, actions, key, evict).attached * MINUTE
        <= Credit(cfg, s, key, t) + (Finish(actions, t) - t) * Rate(cfg)
    ensures Credit(cfg, Reached(cfg, s, actions, evict), key, Finish(actions, t)) >= 0
    decreases |actions|
  {
    if actions == [] {
      if key in s.names {
        CreditGrows(cfg, s.cells[s.names[key]].bucket, s.cells[s.names[key]].bucket.lastRefill, t);
      }
    } else {
      hide Credit, CountDraw, Sound, MayHappen;
      var a := actions[0];
      var (s', ok) := Perform(cfg, s, a, evict);
      assert MayHappen(a, inside, t) && t <= a.now by { LaterAction(actions, inside, t); }
      PerformSpendsCredit(cfg, s, a, inside, t, key, evict);
      PerformKeepsSound(cfg, s, a, inside, t, evict);
      hide Perform;
      HistorySpendsCredit(cfg, s', actions[1..], Inside(inside, a), a.now, key, evict);
      var n, end := Reached(cfg, s', actions[1..], evict), Finish(actions[1..], a.now);
      SpendingAddsUp(cfg, Credit(cfg, s, key, t), Credit(cfg, s', key, a.now), Credit(cfg, n, key, end),
        CountDraw(s, a, ok, key).attached, Counted(cfg, s', actions[1..], key, evict).attached, t, a.now, end);
    }
  }

  lemma SpendingAddsUp(cfg: Config, start: int, mid: int, end: int, first: nat, rest: nat, t0: int, t1: int, t2: int)
    requires mid + first * MINUTE <= start + (t1 - t0) * Rate(cfg) && end + rest * MINUTE <= mid + (t2 - t1) * Rate(cfg)
    ensures end + (first + rest) * MINUTE <= start + (t2 - t0) * Rate(cfg)
  {
    Distribute(first, rest, MINUTE);
    Distribute(t1 - t0, t2 - t1, Rate(cfg));
  }

  lemma LaterAction(actions: seq<Action>, inside: set<nat>, t: int)
    requires actions != [] && IsHistory(actions, inside, t)
    ensures MayHappen(actions[0], inside, t) && t <= actions[0].now
  {
  }

  lemma {:induction false} FinishIsLater(actions: seq<Action>, inside: set<nat>, t: int)
    requires IsHistory(actions, inside, t)
    ensures Finish(actions, t) >= t
    decreases |actions|
  {
    if actions != [] {
      FinishIsLater(actions[1..], Inside(inside, actions[0]), actions[0].now);
    }
  }

  /** Right after its first draw in a window, the bucket in the map has less than a burst and a token left,
    * with that draw. */
  lemma FirstDrawSpends(cfg: Config, s: Limiter, a: Action, inside: set<nat>, t: int, evict: bool)
    requires Sound(cfg, s, inside, t) && MayHappen(a, inside, t) && cfg.burstSize > 0 && a.Draw?
    requires IsAttached(s, s.held[a.thread])
    ensures var key := s.cells[s.held[a.thread]].key;
      var (s', ok) := Perform(cfg, s, a, evict);
      Coherent(s') && Credit(cfg, s', key, a.now) + (if ok then MINUTE else 0) < (cfg.burstSize + 1) * MINUTE
  {
    var b := s.cells[s.held[a.thread]].bucket;
    RefillLeavesLess(cfg, b, a.now);
    Distribute(Refilled(cfg, b, a.now).tokens - 1, 1, MINUTE);
  }

  lemma {:induction false} NoBurstNoAdmission(cfg: Config, s: Limiter, actions: seq<Action>, inside: set<nat>, t: int,
      key: string, evict: bool)
    requires Sound(cfg, s, inside, t) && IsHistory(actions, inside, t) && cfg.burstSize <= 0
    ensures Counted(cfg, s, actions, key, evict) == Count(0, 0)
    ensures Replies(cfg, s, actions, evict) == seq(|actions|, i => false)
    decreases |actions|
  {
    if actions != [] {
      PerformKeepsSound(cfg, s, actions[0], inside, t, evict);
      NoBurstNoAdmission(cfg, Perform(cfg, s, actions[0], evict).0, actions[1..], Inside(inside, actions[0]),
        actions[0].now, key, evict);
    }
  }

  /** The draw is one from the bucket of the key in the map. */
  predicate DrawsFromMap(s: Limiter, a: Action, key: string) {
    a.Draw? && a.thread in s.held && s.held[a.thread] < |s.cells| && s.cells[s.held[a.thread]].key == key
      && IsAttached(s, s.held[a.thread])
  }

  /** In any window fewer requests are admitted from the buckets in the map than burst + rate * window + 1. */
  lemma {:induction false} AttachedWindow(cfg: Config, s: Limiter, window: seq<Action>, inside: set<nat>, t: int,
      key: string, evict: bool)
    requires Sound(cfg, s, inside, t) && window != [] && IsHistory(window, inside, t)
      && (evict ==> EvictionIsHarmless(cfg))
    ensures Counted(cfg, s, window, key, evict).attached * MINUTE
      < (Burst(cfg) + 1) * MINUTE + (Finish(window, t) - window[0].now) * Rate(cfg)
    decreases |window|
  {
    hide Credit, Sound, MayHappen, Take;
    var a := window[0];
    var (s', ok) := Perform(cfg, s, a, evict);
    LaterAction(window, inside, t);
    PerformKeepsSound(cfg, s, a, inside, t, evict);
    FinishIsLater(window[1..], Inside(inside, a), a.now);
    MulMonotone(0, Finish(window, t) - a.now, Rate(cfg));
    if cfg.burstSize <= 0 {
      NoBurstNoAdmission(cfg, s, window, inside, t, key, evict);
    } else if DrawsFromMap(s, a, key) {
      FirstDrawSpends(cfg, s, a, inside, t, evict);
      HistorySpendsCredit(cfg, s', window[1..], Inside(inside, a), a.now, key, evict);
      Distribute(CountDraw(s, a, ok, key).attached, Counted(cfg, s', window[1..], key, evict).attached, MINUTE);
    } else if |window| > 1 {
      AttachedWindow(cfg, s', window[1..], Inside(inside, a), a.now, key, evict);
      LaterAction(window[1..], Inside(inside, a), a.now);
      MulMonotone(Finish(window, t) - window[1].now, Finish(window, t) - a.now, Rate(cfg));
    }
  }

  // Threads that a cleanup catches inside

  /** The threads that hold a bucket of the key which is not the one in the map. */
  ghost function Detached(s: Limiter, key: string): set<nat>
    requires Coherent(s)
  {
    set t | t in s.held && s.cells[s.held[t]].key == key && !IsAttached(s, s.held[t])
  }

  /** The threads inside whose bucket the action takes out of the map. */
  ghost function CaughtBy(cfg: Config, s: Limiter, a: Action, key: string): set<nat>
    requires Coherent(s)
  {
    if key in s.names && key !in Perform(cfg, s, a, true).0.names then set t | t in s.held && s.held[t] == s.names[key]
    else {}
  }

  ghost function Caught(cfg: Config, s: Limiter, actions: seq<Action>, key: string): nat
    requires Coherent(s)
    decreases |actions|
  {
    if actions == [] then 0
    else
      PerformKeepsCoherent(cfg, s, actions[0]);
      |CaughtBy(cfg, s, actions[0], key)| + Caught(cfg, Perform(cfg, s, actions[0], true).0, actions[1..], key)
  }

  lemma PerformKeepsCoherent(cfg: Config, s: Limiter, a: Action)
    requires Coherent(s)
    ensures Coherent(Perform(cfg, s, a, true).0)
  {
  }

  lemma LookupDetaches(cfg: Config, s: Limiter, thread: nat, key: string, k: string, now: int)
    requires Coherent(s) && thread !in s.held
    ensures var s' := Perform(cfg, s, Lookup(thread, k, now), true).0;
      s'.held.Keys == Inside(s.held.Keys, Lookup(thread, k, now)) &&
      Coherent(s') && Detached(s', key) == Detached(s, key)
  {
    var s' := Perform(cfg, s, Lookup(thread, k, now), true).0;
    assert forall t :: t in s.held ==> s'.held[t] == s.held[t] && s'.cells[s'.held[t]] == s.cells[s.held[t]];
    assert forall t :: t in s.held ==> IsAttached(s', s'.held[t]) == IsAttached(s, s.held[t]);
  }

  lemma DrawDetaches(cfg: Config, s: Limiter, thread: nat, key: string, now: int)
    requires Coherent(s) && thread in s.held
    ensures var s' := Perform(cfg, s, Draw(thread, now), true).0;
      s'.held.Keys == Inside(s.held.Keys, Draw(thread, now)) &&
      Coherent(s') && Detached(s', key) == Detached(s, key) - {thread}
  {
    var s' := Perform(cfg, s, Draw(thread, now), true).0;
    hide Take;
    assert forall id :: 0 <= id < |s.cells| ==>
      s'.cells[id].key == s.cells[id].key && IsAttached(s', id) == IsAttached(s, id);
  }

  lemma SweepDetaches(cfg: Config, s: Limiter, key: string, a: Action)
    requires Coherent(s) && a.Sweep?
    ensures var s' := Perform(cfg, s, a, true).0;
      s'.held.Keys == s.held.Keys &&
      Coherent(s') && Detached(s', key) == Detached(s, key) + CaughtBy(cfg, s, a, key)
  {
    var s' := Perform(cfg, s, a, true).0;
    assert s'.cells == s.cells && s'.held == s.held;
    assert forall id :: 0 <= id < |s.cells| ==>
      (IsAttached(s', id) <==> IsAttached(s, id) && s.cells[id].key in s'.names);
  }

  lemma UnionSize(a: set<nat>, b: set<nat>)
    ensures |a + b| <= |a| + |b|
  {
  }

  lemma DetachedStep(cfg: Config, s: Limiter, a: Action, inside: set<nat>, t: int, key: string)
    requires Coherent(s) && s.held.Keys == inside && MayHappen(a, inside, t)
    ensures var (s', ok) := Perform(cfg, s, a, true);
      Coherent(s') && s'.held.Keys == Inside(inside, a)
      && CountDraw(s, a, ok, key).detached + |Detached(s', key)| <= |Detached(s, key)| + |CaughtBy(cfg, s, a, key)|
  {
    hide Perform, Take;
    var before := Detached(s, key);
    match a
    case Lookup(thread, k, now) => LookupDetaches(cfg, s, thread, key, k, now);
    case Draw(thread, now) =>
      DrawDetaches(cfg, s, thread, key, now);
      assert CountDraw(s, a, Perform(cfg, s, a, true).1, key).detached > 0 ==> thread in before;
    case Sweep(k, _, _) =>
      SweepDetaches(cfg, s, key, a);
      UnionSize(before, CaughtBy(cfg, s, a, key));
  }

  /** Every admission from a bucket that is no longer in the map is one of a thread caught inside by a cleanup. */
  lemma {:induction false} DetachedAreCaught(cfg: Config, s: Limiter, actions: seq<Action>, inside: set<nat>, t: int,
      key: string)
    requires Coherent(s) && s.held.Keys == inside && IsHistory(actions, inside, t)
    ensures Counted(cfg, s, actions, key, true).detached <= |Detached(s, key)| + Caught(cfg, s, actions, key)
    decreases |actions|
  {
    hide Detached, CaughtBy, CountDraw, MayHappen;
    if actions != [] {
      LaterAction(actions, inside, t);
      DetachedStep(cfg, s, actions[0], inside, t, key);
      hide Perform;
      DetachedAreCaught(cfg, Perform(cfg, s, actions[0], true).0, actions[1..], Inside(inside, actions[0]),
        actions[0].now, key);
    }
  }

  // Requests and cleanups that nothing interrupts

  /** The buckets in the map, by their keys. */
  function Contents(s: Limiter): Buckets
    requires Coherent(s)
  {
    map k | k in s.names :: s.cells[s.names[k]].bucket
  }

  lemma LookupContents(cfg: Config, s: Limiter, thread: nat, key: string, now: int)
    requires Coherent(s) && thread !in s.held
    ensures var s' := Perform(cfg, s, Lookup(thread, key, now), true).0;
      && Coherent(s') && key in s'.names && s'.held == s.held[thread := s'.names[key]]
      && Contents(s') == Contents(s)[key := BucketOf(cfg, Contents(s), key, now)]
  {
  }

  lemma DrawContents(cfg: Config, s: Limiter, thread: nat, key: string, now: int)
    requires Coherent(s) && key in s.names && thread in s.held && s.held[thread] == s.names[key]
    ensures var (s', ok) := Perform(cfg, s, Draw(thread, now), true);
      var (b, ok') := Take(cfg, Contents(s)[key], now);
      Coherent(s') && s'.held == s.held - {thread} && ok == ok' && Contents(s') == Contents(s)[key := b]
  {
    hide Take;
  }

  /** A lookup and the draw behind it are one request of the model of whole requests. */
  lemma WholeRequest(cfg: Config, s: Limiter, thread: nat, key: string, lookup: int, now: int)
    requires Coherent(s) && thread !in s.held
    ensures var s1 := Perform(cfg, s, Lookup(thread, key, lookup), true).0;
      var (s2, ok) := Perform(cfg, s1, Draw(thread, now), true);
      Coherent(s2) && s2.held == s.held && (Contents(s2), ok) == Allow(cfg, Contents(s), key, lookup, now)
  {
    var s1 := Perform(cfg, s, Lookup(thread, key, lookup), true).0;
    LookupContents(cfg, s, thread, key, lookup);
    DrawContents(cfg, s1, thread, key, now);
    hide Perform, Take, Contents, Coherent;
    var first := BucketOf(cfg, Contents(s), key, lookup);
    var b := Take(cfg, first, now).0;
    assert Contents(s1)[key] == first;
    assert Contents(s)[key := first][key := b] == Contents(s)[key := b];
    assert s.held[thread := s1.names[key]] - {thread} == s.held;
  }

  /** The names that a cleanup leaves. */
  function KeptNames(s: Limiter, now: int): map<string, nat>
    requires Coherent(s)
  {
    map k | k in s.names && !(s.cells[s.names[k]].bucket.lastRefill < now - IDLE) :: s.names[k]
  }

  lemma WholeCleanup(s: Limiter, now: int)
    requires Coherent(s)
    ensures var s' := s.(names := KeptNames(s, now)); Coherent(s') && Contents(s') == Kept(Contents(s), now)
  {
  }

  /** A cleanup under way: of the names outside the rest exactly those of idle buckets are gone. */
  ghost predicate SweptBut(s: Limiter, s': Limiter, rest: set<string>, now: int)
    requires Coherent(s)
  {
    && s'.cells == s.cells && s'.held == s.held && rest <= s'.names.Keys <= s.names.Keys
    && (forall k :: k in s'.names ==> s'.names[k] == s.names[k])
    && forall k :: k in s.names && k !in rest ==> (k in s'.names <==> k in KeptNames(s, now))
  }

  lemma SweptStep(cfg: Config, s: Limiter, s': Limiter, rest: set<string>, key: string, now: int)
    requires Coherent(s) && SweptBut(s, s', rest, now) && key in rest
    ensures SweptBut(s, Perform(cfg, s', Sweep(key, now, now), true).0, rest - {key}, now)
  {
  }

  lemma SweptAll(s: Limiter, s': Limiter, now: int)
    requires Coherent(s) && SweptBut(s, s', {}, now)
    ensures s' == s.(names := KeptNames(s, now))
  {
    assert s'.names == KeptNames(s, now);
  }
}
