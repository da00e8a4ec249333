/** When the engine's cache stops an entry, and what the clustering behind it sees, over every run without a reset. */
module EngineCache {
  import opened Tokenizer
  import opened Entries
  import opened Sequences
  import opened DrainModel
  import opened EngineModel
  import opened EngineRuns
  import DrainRuns

  // Hits

  /** The j-th event got past the cache, and its text has this fingerprint. */
  ghost predicate PassedAs(cfg: EngineConfig, events: seq<Event>, verdicts: seq<Verdict>, j: nat, f: string) {
    && j < |events| && j < |verdicts|
    && events[j].Process? && verdicts[j].Passed? && cfg.hash(events[j].entry.message) == f
  }

  /** Every cached expiry is a time to live after some passage. */
  ghost predicate CacheFromPassages(cfg: EngineConfig, events: seq<Event>, o: Outcome) {
    forall f :: f in o.state.cache ==>
      exists j: nat :: PassedAs(cfg, events, o.verdicts, j, f) && o.state.cache[f] == events[j].addedAt + cfg.ttl
  }

  lemma CacheStep(cfg: EngineConfig, events: seq<Event>, o: Outcome, e: Event)
    requires WellFormed(o.state.drain) && |o.verdicts| == |events| && CacheFromPassages(cfg, events, o)
    ensures var (s, v) := Step(cfg, o.state, e);
      CacheFromPassages(cfg, events + [e], Outcome(s, o.verdicts + [v]))
  {
    hide Add, WellFormed;
    var (s, v) := Step(cfg, o.state, e);
    var all, verdicts := events + [e], o.verdicts + [v];
    forall f | f in s.cache
      ensures exists j: nat :: PassedAs(cfg, all, verdicts, j, f) && s.cache[f] == all[j].addedAt + cfg.ttl
    {
      if f in o.state.cache && o.state.cache[f] == s.cache[f] {
        var j: nat :| PassedAs(cfg, events, o.verdicts, j, f) && o.state.cache[f] == events[j].addedAt + cfg.ttl;
        assert all[j] == events[j] && verdicts[j] == o.verdicts[j];
        assert PassedAs(cfg, all, verdicts, j, f);
      } else {
        assert all[|events|] == e && verdicts[|events|] == v;
        assert PassedAs(cfg, all, verdicts, |events|, f);
      }
    }
  }

  lemma {:induction false} RunCacheFromPassages(cfg: EngineConfig, events: seq<Event>)
    ensures CacheFromPassages(cfg, events, Run(cfg, events))
  {
    hide Step, CacheFromPassages;
    if events == [] {
      EmptyCache(cfg);
    } else {
      var init, e := events[..|events| - 1], events[|events| - 1];
      RunCacheFromPassages(cfg, init);
      CacheStep(cfg, init, Run(cfg, init), e);
      RunLast(cfg, init, e);
      assert init + [e] == events;
    }
  }

  lemma EmptyCache(cfg: EngineConfig)
    ensures CacheFromPassages(cfg, [], Run(cfg, []))
  {
  }

  lemma {:induction false} VerdictsOfPrefix(cfg: EngineConfig, events: seq<Event>, n: nat)
    requires n <= |events|
    ensures Run(cfg, events).verdicts[..n] == Run(cfg, events[..n]).verdicts
    decreases |events|
  {
    hide Step;
    if n == |events| {
      assert events[..n] == events;
    } else {
      VerdictsOfPrefix(cfg, events[..|events| - 1], n);
      assert events[..|events| - 1][..n] == events[..n];
    }
  }

  /** An earlier event with the same text got past the cache, and its time to live has not run out. */
  ghost predicate PassedRecently(cfg: EngineConfig, events: seq<Event>, k: nat, j: nat)
    requires k < |events| && events[k].Process?
  {
    && j < k && events[j].Process? && events[j].entry.message == events[k].entry.message
    && Run(cfg, events).verdicts[j].Passed?
    && events[k].checkedAt <= events[j].addedAt + cfg.ttl
  }

  lemma HitIffCached(cfg: EngineConfig, s: EngineState, e: Event)
    requires WellFormed(s.drain) && e.Process?
    ensures var f := cfg.hash(e.entry.message);
      Step(cfg, s, e).1.Hit? <==> f in s.cache && e.checkedAt <= s.cache[f]
    ensures Step(cfg, s, e).1.Hit? || Step(cfg, s, e).1.Passed?
  {
  }

  /** Hits do not extend the time to live: an entry is stopped iff its text got through at most that long ago. */
  lemma HitIffPassedRecently(cfg: EngineConfig, events: seq<Event>, k: nat)
    requires Timed(events) && Injective(cfg.hash) && k < |events| && events[k].Process?
    ensures Run(cfg, events).verdicts[k].Hit? <==> exists j: nat :: PassedRecently(cfg, events, k, j)
    ensures Run(cfg, events).verdicts[k].Hit? || Run(cfg, events).verdicts[k].Passed?
  {
    hide Run, Step, Timed;
    var before, f := Run(cfg, events[..k]), cfg.hash(events[k].entry.message);
    VerdictOf(cfg, events, k);
    HitIffCached(cfg, before.state, events[k]);
    if Run(cfg, events).verdicts[k].Hit? {
      RunCacheFromPassages(cfg, events[..k]);
      var j: nat :| PassedAs(cfg, events[..k], before.verdicts, j, f)
        && before.state.cache[f] == events[..k][j].addedAt + cfg.ttl;
      VerdictsOfPrefix(cfg, events, k);
      assert PassedRecently(cfg, events, k, j);
    } else {
      forall j: nat ensures !PassedRecently(cfg, events, k, j) {
        if PassedRecently(cfg, events, k, j) {
          StaysCached(cfg, events, j, k);
          ClockBefore(events, k);
        }
      }
    }
  }

  lemma ClockBefore(events: seq<Event>, k: nat)
    requires Timed(events) && 0 < k < |events| && events[k].Process?
    ensures EndOf(events[k - 1]) <= events[k].checkedAt
  {
    assert StartOf(events[k]) == events[k].checkedAt;
  }

  /** A cleanup leaves exactly the entries that have not expired, and does nothing else. */
  lemma CleanupKeepsLive(cfg: EngineConfig, s: EngineState, at: int)
    requires WellFormed(s.drain)
    ensures var (s', v) := Step(cfg, s, Cleanup(at));
      && v.Maintenance? && s'.drain == s.drain && s'.history == s.history
      && (forall f :: f in s'.cache <==> f in s.cache && at <= s.cache[f])
      && forall f :: f in s'.cache ==> s'.cache[f] == s.cache[f]
  {
  }

  /** The events that got past the cache. */
  ghost function Passages(events: seq<Event>, verdicts: seq<Verdict>): set<nat>
    requires |events| == |verdicts|
  {
    set i: nat | i < |events| && events[i].Process? && verdicts[i].Passed?
  }

  /** Their entries are the ones of the history, in the order of the events. */
  lemma {:induction false} PassedInOrder(events: seq<Event>, verdicts: seq<Verdict>) returns (kept: seq<Event>)
    requires |events| == |verdicts|
    ensures Keeps(events, Passages(events, verdicts), kept) && |kept| == |PassedEntries(events, verdicts)|
    ensures forall j :: 0 <= j < |kept| ==>
      kept[j].Process? && kept[j].entry == PassedEntries(events, verdicts)[j]
  {
    hide Keeps;
    if events == [] {
      assert Passages([], []) == {};
      KeepsNothing<Event>();
      kept := [];
    } else {
      var n := |events| - 1;
      var more := events[n].Process? && verdicts[n].Passed?;
      kept := PassedInOrder(events[..n], verdicts[..n]);
      KeepsStep(events[..n], Passages(events[..n], verdicts[..n]), kept, events[n], more);
      kept := kept + if more then [events[n]] else [];
      assert Passages(events, verdicts)
        == if more then Passages(events[..n], verdicts[..n]) + {n} else Passages(events[..n], verdicts[..n]);
      assert events[..n] + [events[n]] == events;
    }
  }

  // What the clustering sees

  /** The tokens of some entries. */
  function TokensOf(cfg: EngineConfig, entries: seq<LogEntry>): (msgs: seq<Tokens>)
    ensures |msgs| == |entries|
  {
    seq(|entries|, i requires 0 <= i < |entries| => Tokenize(cfg.drain.tokenizer, entries[i].message))
  }

  /** What the clustering answered to the entries that got past the cache. */
  ghost function Mined(verdicts: seq<Verdict>): seq<Result> {
    if verdicts == [] then []
    else
      var n := |verdicts| - 1;
      Mined(verdicts[..n]) + (if verdicts[n].Passed? then [verdicts[n].mined] else [])
  }

  lemma StepMines(cfg: EngineConfig, s: EngineState, e: Event)
    requires WellFormed(s.drain)
    ensures var (s', v) := Step(cfg, s, e);
      if e.Process? && v.Passed? then
        (s'.drain, v.mined) == Add(cfg.drain, s.drain, Tokenize(cfg.drain.tokenizer, e.entry.message))
      else s'.drain == s.drain && !v.Passed?
  {
    hide Add;
  }

  lemma PassedStep(events: seq<Event>, verdicts: seq<Verdict>, e: Event, v: Verdict)
    requires |events| == |verdicts|
    ensures PassedEntries(events + [e], verdicts + [v])
      == PassedEntries(events, verdicts) + (if v.Passed? && e.Process? then [e.entry] else [])
    ensures Mined(verdicts + [v]) == Mined(verdicts) + (if v.Passed? then [v.mined] else [])
  {
    assert (events + [e])[..|events|] == events && (verdicts + [v])[..|verdicts|] == verdicts;
  }

  /** The clustering is that of a run over the entries past the cache alone, with the same answers. */
  ghost predicate SeesPassed(cfg: EngineConfig, events: seq<Event>) {
    var o := Run(cfg, events);
    var d := DrainRuns.Run(cfg.drain, TokensOf(cfg, PassedEntries(events, o.verdicts)));
    o.state.drain == d.state && Mined(o.verdicts) == d.results
  }

  lemma SeesPassedStep(cfg: EngineConfig, init: seq<Event>, e: Event)
    requires SeesPassed(cfg, init)
    ensures SeesPassed(cfg, init + [e])
  {
    hide Run, Step, PassedEntries, Mined, DrainRuns.Run, Add;
    var o := Run(cfg, init);
    var passed := PassedEntries(init, o.verdicts);
    var v := Step(cfg, o.state, e).1;
    RunLast(cfg, init, e);
    StepMines(cfg, o.state, e);
    PassedStep(init, o.verdicts, e, v);
    if e.Process? && v.Passed? {
      var m := Tokenize(cfg.drain.tokenizer, e.entry.message);
      assert TokensOf(cfg, passed + [e.entry]) == TokensOf(cfg, passed) + [m];
      DrainRuns.RunLast(cfg.drain, TokensOf(cfg, passed), m);
    } else {
      assert passed + [] == passed && Mined(o.verdicts) + [] == Mined(o.verdicts);
    }
  }

  lemma {:induction false} DrainSeesPassed(cfg: EngineConfig, events: seq<Event>)
    ensures SeesPassed(cfg, events)
  {
    if events == [] {
      assert TokensOf(cfg, []) == [];
    } else {
      var init := events[..|events| - 1];
      DrainSeesPassed(cfg, init);
      hide SeesPassed;
      SeesPassedStep(cfg, init, events[|events| - 1]);
      assert init + [events[|events| - 1]] == events;
    }
  }
}
