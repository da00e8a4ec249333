/** Delivery to one output: retries with growing pauses behind a circuit breaker. */
module RouterModel {
  import opened Text

  const DEFAULT_BACKOFF := 250_000_000
  const DEFAULT_MAX_BACKOFF := 5_000_000_000

  /** Times are nanoseconds. */
  datatype OutputConfig = OutputConfig(retries: int, initialBackoff: int, maxBackoff: int, maxFailures: int,
      cooldown: int)

  function Initial(cfg: OutputConfig): (d: int)
    ensures d > 0
  {
    if cfg.initialBackoff <= 0 then DEFAULT_BACKOFF else cfg.initialBackoff
  }

  function Limit(cfg: OutputConfig): (d: int)
    ensures d > 0
  {
    if cfg.maxBackoff <= 0 then DEFAULT_MAX_BACKOFF else cfg.maxBackoff
  }

  function Attempts(cfg: OutputConfig): (n: nat)
    ensures n >= 1
  {
    if cfg.retries <= 0 then 1 else cfg.retries
  }

  // Pauses

  function Min(a: int, b: int): int { if a <= b then a else b }

  function Power2(i: nat): (p: nat)
    ensures p >= 1
  {
    if i == 0 then 1 else 2 * Power2(i - 1)
  }

  /** The pause after the i-th failed attempt. */
  function Pause(initial: int, limit: int, i: nat): int {
    if i == 0 then initial else Min(initial * Power2(i), limit)
  }

  /** The first pause is not cut; from then on doubling the pause and cutting it at the limit. */
  lemma NextPause(initial: int, limit: int, i: nat)
    requires initial > 0 && limit > 0
    ensures Pause(initial, limit, 0) == initial
    ensures Pause(initial, limit, i + 1) == Min(2 * Pause(initial, limit, i), limit)
  {
    assert initial * Power2(i + 1) == 2 * (initial * Power2(i));
  }

  function Pauses(initial: int, limit: int, n: nat): (ds: seq<int>) {
    seq(n, i requires 0 <= i < n => Pause(initial, limit, i))
  }

  function Sum(ds: seq<int>): int { if ds == [] then 0 else Sum(ds[..|ds| - 1]) + ds[|ds| - 1] }

  lemma PauseRange(initial: int, limit: int, i: nat)
    requires initial > 0 && limit > 0
    ensures i > 0 || initial <= limit ==> 0 < Pause(initial, limit, i) <= limit
    ensures i > 0 && initial > limit ==> Pause(initial, limit, i) == limit
  {
    Growth(initial, i);
  }

  lemma Growth(initial: int, i: nat)
    requires initial > 0
    ensures initial * Power2(i) >= initial
  {
    assert initial * Power2(i) - initial == initial * (Power2(i) - 1);
  }

  lemma {:induction false} TotalPause(initial: int, limit: int, n: nat)
    requires initial > 0 && limit > 0
    ensures initial <= limit ==> Sum(Pauses(initial, limit, n)) <= n * limit
    ensures initial > limit && n > 0 ==> Sum(Pauses(initial, limit, n)) == initial + (n - 1) * limit
  {
    if n > 0 {
      TotalPause(initial, limit, n - 1);
      assert Pauses(initial, limit, n)[..n - 1] == Pauses(initial, limit, n - 1);
      PauseRange(initial, limit, n - 1);
      assert n * limit == (n - 1) * limit + limit;
      assert n > 1 ==> (n - 1) * limit == (n - 2) * limit + limit;
    }
  }

  /** A call that fails throughout pauses for at most (attempts - 1) times the limit: when, exactly. */
  lemma TotalPauseBoundIff(cfg: OutputConfig)
    ensures var n := Attempts(cfg) - 1;
      Sum(Pauses(Initial(cfg), Limit(cfg), n)) <= n * Limit(cfg) <==> Attempts(cfg) == 1 || Initial(cfg) <= Limit(cfg)
  {
    var n := Attempts(cfg) - 1;
    TotalPause(Initial(cfg), Limit(cfg), n);
    assert n > 0 ==> n * Limit(cfg) == (n - 1) * Limit(cfg) + Limit(cfg);
  }

  // The breaker

  /** One Send: how it ended, and when. */
  datatype Try = Try(ok: bool, at: int)

  datatype Breaker = Breaker(failures: nat, openUntil: Option<int>)

  const CLOSED := Breaker(0, None)

  predicate IsOpen(b: Breaker, now: int) { b.openUntil.Some? && now < b.openUntil.value }

  function AfterTry(cfg: OutputConfig, b: Breaker, t: Try): Breaker {
    if t.ok then b.(failures := 0)
    else if cfg.maxFailures > 0 && b.failures + 1 >= cfg.maxFailures then Breaker(0, Some(t.at + cfg.cooldown))
    else b.(failures := b.failures + 1)
  }

  function AfterTries(cfg: OutputConfig, b: Breaker, tries: seq<Try>): Breaker {
    if tries == [] then b else AfterTry(cfg, AfterTries(cfg, b, tries[..|tries| - 1]), tries[|tries| - 1])
  }

  lemma {:induction false} AfterMoreTries(cfg: OutputConfig, b: Breaker, s: seq<Try>, t: seq<Try>)
    ensures AfterTries(cfg, b, s + t) == AfterTries(cfg, AfterTries(cfg, b, s), t)
  {
    if t == [] {
      assert s + t == s;
    } else {
      assert (s + t)[..|s + t| - 1] == s + t[..|t| - 1];
      AfterMoreTries(cfg, b, s, t[..|t| - 1]);
    }
  }

  /** How many of the last Sends failed, without a success between or after them. */
  function FailureRun(tries: seq<Try>): (n: nat)
    ensures n <= |tries| && (forall i :: |tries| - n <= i < |tries| ==> !tries[i].ok)
    ensures n < |tries| ==> tries[|tries| - n - 1].ok
  {
    if tries == [] || tries[|tries| - 1].ok then 0 else FailureRun(tries[..|tries| - 1]) + 1
  }

  /** The i-th Send opened the breaker: its run of failures is a multiple of the maximum. */
  predicate Trips(cfg: OutputConfig, tries: seq<Try>, i: nat) {
    i < |tries| && cfg.maxFailures > 0 && !tries[i].ok && Residue(FailureRun(tries[..i + 1]), cfg.maxFailures) == 0
  }

  function Residue(n: nat, m: nat): (r: nat)
    requires m > 0
    ensures r < m
  {
    n % m
  }

  lemma AtLeast(d: int, m: nat)
    requires d >= 1
    ensures d * m >= m
  {
    assert d * m == (d - 1) * m + m;
  }

  lemma Unique(m: nat, p: int, x: int, q: int, y: int)
    requires 0 <= x < m && 0 <= y < m && p * m + x == q * m + y
    ensures x == y
  {
    var d := p - q;
    assert d * m == p * m - q * m && (-d) * m == -(d * m);
    if d > 0 {
      AtLeast(d, m);
    } else if d < 0 {
      AtLeast(-d, m);
    }
  }

  lemma ResidueStep(n: nat, m: nat)
    requires m > 0
    ensures Residue(n + 1, m) == if Residue(n, m) + 1 == m then 0 else Residue(n, m) + 1
  {
    var q, r := n / m, n % m;
    var q', r' := (n + 1) / m, (n + 1) % m;
    assert n == q * m + r && n + 1 == q' * m + r';
    if r + 1 == m {
      assert (q + 1) * m == q * m + m;
      Unique(m, q', r', q + 1, 0);
    } else {
      Unique(m, q', r', q, r + 1);
    }
  }

  /** The counter is the current run of failures, modulo the maximum when there is one. */
  lemma {:induction false} CounterIsFailureRun(cfg: OutputConfig, tries: seq<Try>)
    ensures AfterTries(cfg, CLOSED, tries).failures ==
      if cfg.maxFailures > 0 then Residue(FailureRun(tries), cfg.maxFailures) else FailureRun(tries)
  {
    hide Residue;
    if cfg.maxFailures > 0 {
      NothingLeft(cfg.maxFailures);
    }
    if tries != [] {
      var init := tries[..|tries| - 1];
      CounterIsFailureRun(cfg, init);
      if cfg.maxFailures > 0 {
        ResidueStep(FailureRun(init), cfg.maxFailures);
      }
    }
  }

  lemma NothingLeft(m: nat)
    requires m > 0
    ensures Residue(0, m) == 0
  {
  }

  predicate InOrder(tries: seq<Try>) { forall i, j :: 0 <= i <= j < |tries| ==> tries[i].at <= tries[j].at }

  /** The last Send that opened the breaker, if there is one. */
  ghost predicate LastTrip(cfg: OutputConfig, tries: seq<Try>, i: nat) {
    Trips(cfg, tries, i) && forall j: nat :: Trips(cfg, tries, j) ==> j <= i
  }

  lemma TripsOfPrefix(cfg: OutputConfig, tries: seq<Try>, i: nat)
    requires tries != [] && i < |tries| - 1
    ensures Trips(cfg, tries, i) <==> Trips(cfg, tries[..|tries| - 1], i)
  {
    assert tries[..i + 1] == tries[..|tries| - 1][..i + 1];
  }

  lemma LastTrips(cfg: OutputConfig, tries: seq<Try>)
    requires tries != []
    ensures var b := AfterTries(cfg, CLOSED, tries[..|tries| - 1]);
      Trips(cfg, tries, |tries| - 1) <==>
        !tries[|tries| - 1].ok && cfg.maxFailures > 0 && b.failures + 1 >= cfg.maxFailures
  {
    hide Residue;
    var init := tries[..|tries| - 1];
    CounterIsFailureRun(cfg, init);
    assert tries[..|tries| - 1 + 1] == tries;
    if cfg.maxFailures > 0 {
      ResidueStep(FailureRun(init), cfg.maxFailures);
    }
  }

  /** The breaker opens with every trip, until a cooldown after the last one. */
  lemma {:induction false} OpenUntilIsLastTrip(cfg: OutputConfig, tries: seq<Try>) returns (last: Option<nat>)
    ensures last.None? ==> AfterTries(cfg, CLOSED, tries).openUntil.None? && forall j: nat :: !Trips(cfg, tries, j)
    ensures last.Some? ==> last.value < |tries| && LastTrip(cfg, tries, last.value)
    ensures last.Some? ==> AfterTries(cfg, CLOSED, tries).openUntil == Some(tries[last.value].at + cfg.cooldown)
  {
    TripsAreSends(cfg, tries);
    hide Trips;
    if tries == [] {
      last := None;
    } else {
      var n := |tries| - 1;
      last := OpenUntilIsLastTrip(cfg, tries[..n]);
      LastTrips(cfg, tries);
      forall j: nat | j < n ensures Trips(cfg, tries, j) <==> Trips(cfg, tries[..n], j) {
        TripsOfPrefix(cfg, tries, j);
      }
      if Trips(cfg, tries, n) {
        last := Some(n);
      }
    }
  }

  lemma TripsAreSends(cfg: OutputConfig, tries: seq<Try>)
    ensures forall j: nat :: Trips(cfg, tries, j) ==> j < |tries|
  {
  }

  ghost predicate CoolsDown(cfg: OutputConfig, tries: seq<Try>, now: int) {
    exists i: nat :: Trips(cfg, tries, i) && now < tries[i].at + cfg.cooldown
  }

  /** After any Sends: open exactly during the cooldown of some trip. */
  lemma OpenIffRecentTrip(cfg: OutputConfig, tries: seq<Try>, now: int)
    requires InOrder(tries)
    ensures IsOpen(AfterTries(cfg, CLOSED, tries), now) <==> CoolsDown(cfg, tries, now)
  {
    hide AfterTries, Residue, FailureRun;
    var last := OpenUntilIsLastTrip(cfg, tries);
    if CoolsDown(cfg, tries, now) {
      var i: nat :| Trips(cfg, tries, i) && now < tries[i].at + cfg.cooldown;
      assert i <= last.value && tries[i].at <= tries[last.value].at;
    }
  }

  // Calls

  /** One call: when it checks the breaker, and how its Sends would end. */
  datatype Call = Call(start: int, tries: seq<Try>)

  /** How many Sends a call makes: up to the first success. */
  function Used(tries: seq<Try>): (n: nat)
    ensures n <= |tries|
    ensures forall i :: 0 <= i < n - 1 ==> !tries[i].ok
    ensures n == |tries| || (n > 0 && tries[n - 1].ok)
  {
    if tries == [] then 0 else if tries[0].ok then 1 else 1 + Used(tries[1..])
  }

  function Made(b: Breaker, call: Call): seq<Try> {
    if IsOpen(b, call.start) then [] else call.tries[..Used(call.tries)]
  }

  function AfterCall(cfg: OutputConfig, b: Breaker, call: Call): Breaker {
    AfterTries(cfg, b, Made(b, call))
  }

  function AfterCalls(cfg: OutputConfig, b: Breaker, calls: seq<Call>): Breaker {
    if calls == [] then b else AfterCall(cfg, AfterCalls(cfg, b, calls[..|calls| - 1]), calls[|calls| - 1])
  }

  function AllMade(cfg: OutputConfig, b: Breaker, calls: seq<Call>): seq<Try> {
    if calls == [] then []
    else
      var init := calls[..|calls| - 1];
      AllMade(cfg, b, init) + Made(AfterCalls(cfg, b, init), calls[|calls| - 1])
  }

  /** The breaker sees the Sends of all calls as one sequence. */
  lemma {:induction false} CallsAreTheirSends(cfg: OutputConfig, b: Breaker, calls: seq<Call>)
    ensures AfterCalls(cfg, b, calls) == AfterTries(cfg, b, AllMade(cfg, b, calls))
  {
    if calls != [] {
      var init := calls[..|calls| - 1];
      CallsAreTheirSends(cfg, b, init);
      AfterMoreTries(cfg, b, AllMade(cfg, b, init), Made(AfterCalls(cfg, b, init), calls[|calls| - 1]));
    }
  }

  // An output that keeps failing

  /** All Sends fail, none before its call starts, and calls come one after the other. */
  predicate KeepsFailing(cfg: OutputConfig, calls: seq<Call>) {
    && (forall k :: 0 <= k < |calls| ==> |calls[k].tries| == Attempts(cfg))
    && (forall k, i :: 0 <= k < |calls| && 0 <= i < |calls[k].tries| ==>
       !calls[k].tries[i].ok && calls[k].start <= calls[k].tries[i].at)
    && (forall k, l :: 0 <= k <= l < |calls| ==> calls[k].start <= calls[l].start)
  }

  /** The call opens the breaker. */
  predicate Opens(cfg: OutputConfig, b: Breaker, call: Call) {
    !IsOpen(b, call.start) && b.failures + |call.tries| >= cfg.maxFailures
  }

  function Openings(cfg: OutputConfig, b: Breaker, calls: seq<Call>): nat {
    if calls == [] then 0
    else
      var init := calls[..|calls| - 1];
      Openings(cfg, b, init) + (if Opens(cfg, AfterCalls(cfg, b, init), calls[|calls| - 1]) then 1 else 0)
  }

  lemma {:induction false} AllFailed(cfg: OutputConfig, b: Breaker, tries: seq<Try>, start: int)
    requires cfg.maxFailures > 0 && b.failures < cfg.maxFailures
    requires forall i :: 0 <= i < |tries| ==> !tries[i].ok && start <= tries[i].at
    ensures var b' := AfterTries(cfg, b, tries);
      && b'.failures < cfg.maxFailures
      && if b.failures + |tries| < cfg.maxFailures then b' == b.(failures := b.failures + |tries|)
         else b'.openUntil.Some? && b'.openUntil.value >= start + cfg.cooldown
  {
    if tries != [] {
      AllFailed(cfg, b, tries[..|tries| - 1], start);
    }
  }

  lemma NoSuccessUsesAll(tries: seq<Try>)
    requires forall i :: 0 <= i < |tries| ==> !tries[i].ok
    ensures Used(tries) == |tries| && tries[..Used(tries)] == tries
  {
  }

  /** So many Sends are paid for by so many openings and by the counter; every opening lasts a cooldown. */
  predicate Balances(cfg: OutputConfig, after: Breaker, made: nat, k: nat, first: int, last: int) {
    && after.failures < cfg.maxFailures
    && made <= k * (cfg.maxFailures - 1 + Attempts(cfg)) + after.failures
    && (k > 0 ==> after.openUntil.Some? && after.openUntil.value >= first + k * cfg.cooldown)
    && (k > 0 ==> last >= first + (k - 1) * cfg.cooldown)
  }

  function FirstStart(calls: seq<Call>): int { if calls == [] then 0 else calls[0].start }

  function LastStart(calls: seq<Call>): int { if calls == [] then 0 else calls[|calls| - 1].start }

  ghost predicate Paid(cfg: OutputConfig, b: Breaker, calls: seq<Call>) {
    PaidWith(cfg, AfterCalls(cfg, b, calls), |AllMade(cfg, b, calls)|, Openings(cfg, b, calls), calls)
  }

  ghost predicate PaidWith(cfg: OutputConfig, now: Breaker, made: nat, k: nat, calls: seq<Call>) {
    (k > 0 ==> calls != []) && Balances(cfg, now, made, k, FirstStart(calls), LastStart(calls))
  }

  lemma Times(k: nat, x: nat)
    ensures (k + 1) * x == k * x + x
    ensures k > 0 ==> (k - 1) * x <= k * x
  {
  }

  lemma CallStep(cfg: OutputConfig, b: Breaker, call: Call)
    requires cfg.maxFailures > 0 && b.failures < cfg.maxFailures && |call.tries| == Attempts(cfg)
    requires forall i :: 0 <= i < |call.tries| ==> !call.tries[i].ok && call.start <= call.tries[i].at
    ensures var b' := AfterCall(cfg, b, call);
      && b'.failures < cfg.maxFailures
      && |Made(b, call)| <= Attempts(cfg)
      && (IsOpen(b, call.start) ==> b' == b && Made(b, call) == [])
      && (!IsOpen(b, call.start) && !Opens(cfg, b, call) ==> b' == b.(failures := b.failures + Attempts(cfg)))
      && (Opens(cfg, b, call) ==> b'.openUntil.Some? && b'.openUntil.value >= call.start + cfg.cooldown)
  {
    NoSuccessUsesAll(call.tries);
    AllFailed(cfg, b, call.tries, call.start);
  }

  lemma CallsStep(cfg: OutputConfig, b: Breaker, calls: seq<Call>, call: Call)
    ensures var mid := AfterCalls(cfg, b, calls);
      && AfterCalls(cfg, b, calls + [call]) == AfterCall(cfg, mid, call)
      && |AllMade(cfg, b, calls + [call])| == |AllMade(cfg, b, calls)| + |Made(mid, call)|
      && Openings(cfg, b, calls + [call]) == Openings(cfg, b, calls) + (if Opens(cfg, mid, call) then 1 else 0)
  {
    hide AfterCall, Made, Opens;
    assert (calls + [call])[..|calls|] == calls;
  }

  lemma LastCallFails(cfg: OutputConfig, calls: seq<Call>, call: Call)
    requires KeepsFailing(cfg, calls + [call])
    ensures |call.tries| == Attempts(cfg)
    ensures forall i :: 0 <= i < |call.tries| ==> !call.tries[i].ok && call.start <= call.tries[i].at
    ensures calls != [] ==> FirstStart(calls) <= call.start && LastStart(calls) <= call.start
  {
    var all := calls + [call];
    assert all[|calls|] == call && all[0].start <= all[|calls|].start;
    assert calls != [] ==> all[|calls| - 1].start <= all[|calls|].start;
  }

  lemma BalanceStep(cfg: OutputConfig, mid: Breaker, call: Call, made: nat, k: nat, first: int, last: int)
    requires cfg.maxFailures > 0 && cfg.cooldown >= 0 && Balances(cfg, mid, made, k, first, last) && first <= call.start
    requires |call.tries| == Attempts(cfg)
    requires forall i :: 0 <= i < |call.tries| ==> !call.tries[i].ok && call.start <= call.tries[i].at
    requires last <= call.start
    ensures var k' := k + (if Opens(cfg, mid, call) then 1 else 0);
      Balances(cfg, AfterCall(cfg, mid, call), made + |Made(mid, call)|, k', first, call.start)
  {
    CallStep(cfg, mid, call);
    hide Attempts, Made, AfterCall;
    Times(k, cfg.maxFailures - 1 + Attempts(cfg));
    Times(k, cfg.cooldown);
  }

  lemma Starts(calls: seq<Call>, call: Call)
    ensures FirstStart(calls + [call]) == (if calls == [] then call.start else FirstStart(calls))
    ensures LastStart(calls + [call]) == call.start
    ensures calls == [] ==> FirstStart(calls) == LastStart(calls) == 0
  {
  }

  lemma PaidWithStep(cfg: OutputConfig, mid: Breaker, made: nat, k: nat, calls: seq<Call>, call: Call)
    requires cfg.maxFailures > 0 && cfg.cooldown >= 0
    requires PaidWith(cfg, mid, made, k, calls) && KeepsFailing(cfg, calls + [call])
    ensures var k' := k + (if Opens(cfg, mid, call) then 1 else 0);
      PaidWith(cfg, AfterCall(cfg, mid, call), made + |Made(mid, call)|, k', calls + [call])
  {
    LastCallFails(cfg, calls, call);
    Starts(calls, call);
    hide KeepsFailing, Attempts, Made, AfterCall, Opens, Balances, FirstStart, LastStart;
    if calls == [] {
      FirstBalance(cfg, mid, made, call.start);
      BalanceStep(cfg, mid, call, made, k, call.start, call.start);
    } else {
      BalanceStep(cfg, mid, call, made, k, FirstStart(calls), LastStart(calls));
    }
  }

  lemma PaidStep(cfg: OutputConfig, b: Breaker, calls: seq<Call>, call: Call)
    requires cfg.maxFailures > 0 && cfg.cooldown >= 0 && Paid(cfg, b, calls) && KeepsFailing(cfg, calls + [call])
    ensures Paid(cfg, b, calls + [call])
  {
    hide PaidWith, KeepsFailing, Made, AfterCall, Opens;
    CallsStep(cfg, b, calls, call);
    PaidWithStep(cfg, AfterCalls(cfg, b, calls), |AllMade(cfg, b, calls)|, Openings(cfg, b, calls), calls, call);
  }

  /** Without openings the times do not matter. */
  lemma FirstBalance(cfg: OutputConfig, b: Breaker, made: nat, start: int)
    requires Balances(cfg, b, made, 0, 0, 0)
    ensures Balances(cfg, b, made, 0, start, start)
  {
  }

  lemma KeepsFailingBefore(cfg: OutputConfig, calls: seq<Call>)
    requires KeepsFailing(cfg, calls) && calls != []
    ensures KeepsFailing(cfg, calls[..|calls| - 1])
  {
  }

  lemma NothingToPay(cfg: OutputConfig, b: Breaker)
    requires b.failures < cfg.maxFailures
    ensures Paid(cfg, b, [])
  {
  }

  lemma {:induction false} FailingIsPaid(cfg: OutputConfig, b: Breaker, calls: seq<Call>)
    requires cfg.maxFailures > 0 && cfg.cooldown >= 0 && b.failures < cfg.maxFailures && KeepsFailing(cfg, calls)
    ensures Paid(cfg, b, calls)
  {
    hide Paid, KeepsFailing;
    if calls == [] {
      NothingToPay(cfg, b);
    } else {
      var init := calls[..|calls| - 1];
      KeepsFailingBefore(cfg, calls);
      FailingIsPaid(cfg, b, init);
      assert init + [calls[|calls| - 1]] == calls;
      PaidStep(cfg, b, init, calls[|calls| - 1]);
    }
  }

  /** Between open periods a failing output is tried at most (maximum - 1 + attempts) times. */
  lemma SendsBetweenOpenings(cfg: OutputConfig, b: Breaker, calls: seq<Call>)
    requires cfg.maxFailures > 0 && cfg.cooldown >= 0 && b.failures < cfg.maxFailures && KeepsFailing(cfg, calls)
    requires calls != [] && Openings(cfg, b, calls[..|calls| - 1]) == 0
    ensures |AllMade(cfg, b, calls)| <= cfg.maxFailures - 1 + Attempts(cfg)
  {
    FailingIsPaid(cfg, b, calls[..|calls| - 1]);
  }

  /** Over any stretch of calls: one share of Sends per opening, and openings are a cooldown apart. */
  lemma SendsOverTime(cfg: OutputConfig, b: Breaker, calls: seq<Call>)
    requires cfg.maxFailures > 0 && cfg.cooldown >= 0 && b.failures < cfg.maxFailures && KeepsFailing(cfg, calls)
    ensures var k := Openings(cfg, b, calls);
      && |AllMade(cfg, b, calls)| <= k * (cfg.maxFailures - 1 + Attempts(cfg)) + cfg.maxFailures - 1
      && (k > 0 ==> calls[|calls| - 1].start - calls[0].start >= (k - 1) * cfg.cooldown)
  {
    hide KeepsFailing, Attempts, Made, AfterCall, Opens;
    FailingIsPaid(cfg, b, calls);
  }
}
