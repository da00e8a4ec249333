/** Theorems about every run of the dedup engine without a reset. */
module EngineRuns {
  import opened Text
  import opened Tokenizer
  import opened Entries
  import opened DrainModel
  import opened DrainInvariants
  import opened DrainStability
  import opened ContextWindow
  import opened EngineModel

  datatype Outcome = Outcome(state: EngineState, verdicts: seq<Verdict>)

  ghost function Run(cfg: EngineConfig, events: seq<Event>): (o: Outcome)
    ensures Sound(o.state.drain) && |o.verdicts| == |events|
  {
    if events == [] then Outcome(NEW_ENGINE, [])
    else
      var o := Run(cfg, events[..|events| - 1]);
      StepKeepsSound(cfg, o.state, events[|events| - 1]);
      var (s, v) := Step(cfg, o.state, events[|events| - 1]);
      Outcome(s, o.verdicts + [v])
  }

  lemma StepKeepsSound(cfg: EngineConfig, s: EngineState, e: Event)
    requires Sound(s.drain)
    ensures Sound(Step(cfg, s, e).0.drain)
  {
    if e.Process? {
      SoundAfter(cfg.drain, s.drain, Tokenize(cfg.drain.tokenizer, e.entry.message));
    }
  }

  /** A run is extended by the step of its last event. */
  lemma RunLast(cfg: EngineConfig, init: seq<Event>, e: Event)
    ensures var o := Run(cfg, init);
      var (s, v) := Step(cfg, o.state, e);
      Run(cfg, init + [e]) == Outcome(s, o.verdicts + [v])
  {
    hide Step;
    assert (init + [e])[..|init|] == init;
  }

  // Nothing is suppressed without a representative

  ghost predicate Injective(f: string -> string) {
    forall a, b :: f(a) == f(b) ==> a == b
  }

  /** The cluster that the j-th event created covers a message by now. */
  ghost predicate CoversNow(cfg: EngineConfig, s: EngineState, v: Verdict, message: string) {
    && v.Passed? && v.mined.changeType == Created && v.mined.clusterID in s.drain.clusters
    && Covers(s.drain.clusters[v.mined.clusterID].template, Tokenize(cfg.drain.tokenizer, message))
  }

  /** The j-th event emitted an entry with this text, or one whose cluster covers it by now. */
  ghost predicate Represents(cfg: EngineConfig, events: seq<Event>, o: Outcome, j: nat, message: string)
    requires |o.verdicts| == |events|
  {
    && j < |events| && events[j].Process? && Emitted(o.verdicts[j])
    && (events[j].entry.message == message || CoversNow(cfg, o.state, o.verdicts[j], message))
  }

  ghost predicate Represented(cfg: EngineConfig, events: seq<Event>, o: Outcome, message: string, before: nat)
    requires |o.verdicts| == |events|
  {
    exists j :: 0 <= j < before && Represents(cfg, events, o, j, message)
  }

  /** Every message seen goes back to an emitted entry. */
  ghost predicate AllRepresented(cfg: EngineConfig, events: seq<Event>, o: Outcome)
    requires |o.verdicts| == |events|
  {
    forall k :: 0 <= k < |events| && events[k].Process? ==>
      Represented(cfg, events, o, events[k].entry.message, if Suppressed(o.verdicts[k]) then k else k + 1)
  }

  /** Every cached fingerprint is that of a message seen. */
  ghost predicate CacheSeen(cfg: EngineConfig, events: seq<Event>, o: Outcome) {
    forall f :: f in o.state.cache ==>
      exists k :: 0 <= k < |events| && events[k].Process? && cfg.hash(events[k].entry.message) == f
  }

  /** Every cluster was created by an emitted entry. */
  ghost predicate ClustersCreated(events: seq<Event>, o: Outcome)
    requires |o.verdicts| == |events|
  {
    forall id :: id in o.state.drain.clusters ==> exists j :: 0 <= j < |events| && IsCreator(events, o, j, id)
  }

  ghost predicate Accounted(cfg: EngineConfig, events: seq<Event>, o: Outcome)
    requires |o.verdicts| == |events|
  {
    AllRepresented(cfg, events, o) && CacheSeen(cfg, events, o) && ClustersCreated(events, o)
  }

  ghost predicate IsCreator(events: seq<Event>, o: Outcome, j: nat, id: nat)
    requires |o.verdicts| == |events|
  {
    && j < |events| && events[j].Process? && Emitted(o.verdicts[j])
    && o.verdicts[j].Passed? && o.verdicts[j].mined.changeType == Created && o.verdicts[j].mined.clusterID == id
  }

  /** Adding a message keeps what templates cover, and covers the message itself. */
  lemma AddCovers(cfg: Config, s: State, tokens: Tokens)
    requires Sound(s)
    ensures var (s', r) := Add(cfg, s, tokens);
      && (forall id :: id in s.clusters ==> id in s'.clusters)
      && (forall id :: id in s'.clusters ==> id in s.clusters || (r.changeType == Created && r.clusterID == id))
      && (forall id, m :: id in s.clusters && Covers(s.clusters[id].template, m) ==>
         Covers(s'.clusters[id].template, m))
      && (r.changeType != Nothing ==> r.clusterID in s'.clusters && Covers(s'.clusters[r.clusterID].template, tokens))
      && (r.changeType == Nothing ==> r.clusterID !in s'.clusters)
  {
    hide Add;
    var leaf := AddSteps(cfg, s, tokens);
    var (s', r) := Add(cfg, s, tokens);
    if r.changeType == TemplateChanged || r.changeType == SizeChanged {
      var t := s.clusters[r.clusterID].template;
      GeneralizeCovers(t, tokens);
      forall m | Covers(t, m) ensures Covers(Generalize(t, tokens), m) {
        GeneralizeKeepsCover(t, tokens, m);
      }
    }
  }

  /** What represented a message still does after another step. */
  lemma StillRepresented(cfg: EngineConfig, events: seq<Event>, o: Outcome, e: Event, o': Outcome, message: string,
      before: nat)
    requires |o.verdicts| == |events| && before <= |events|
    requires |o'.verdicts| == |events| + 1 && o'.verdicts[..|events|] == o.verdicts
    requires forall id :: id in o.state.drain.clusters ==> id in o'.state.drain.clusters
    requires forall id, m :: id in o.state.drain.clusters && Covers(o.state.drain.clusters[id].template, m) ==>
      Covers(o'.state.drain.clusters[id].template, m)
    requires Represented(cfg, events, o, message, before)
    ensures Represented(cfg, events + [e], o', message, before)
  {
    var j :| 0 <= j < before && Represents(cfg, events, o, j, message);
    assert (events + [e])[j] == events[j] && o'.verdicts[j] == o'.verdicts[..|events|][j];
    assert Represents(cfg, events + [e], o', j, message);
  }

  /** The step of one event, as the accounting needs it. */
  ghost predicate Stepped(cfg: EngineConfig, events: seq<Event>, o: Outcome, e: Event, o': Outcome)
    requires |o.verdicts| == |events|
  {
    && |o'.verdicts| == |events| + 1 && o'.verdicts[..|events|] == o.verdicts
    && var s, s', v := o.state, o'.state, o'.verdicts[|events|];
       && (forall id :: id in s.drain.clusters ==> id in s'.drain.clusters)
       && (forall id, m :: id in s.drain.clusters && Covers(s.drain.clusters[id].template, m) ==>
             Covers(s'.drain.clusters[id].template, m))
       && (forall id :: id in s'.drain.clusters && id !in s.drain.clusters ==>
             e.Process? && Emitted(v) && v.Passed? && v.mined.changeType == Created && v.mined.clusterID == id)
       && (forall f :: f in s'.cache ==> f in s.cache || (e.Process? && f == cfg.hash(e.entry.message)))
       && (e.Process? ==> !v.Maintenance?)
       && (e.Process? && Suppressed(v) ==>
             || cfg.hash(e.entry.message) in s.cache
             || exists id :: id in s.drain.clusters && id in s'.drain.clusters
                  && Covers(s'.drain.clusters[id].template, Tokenize(cfg.drain.tokenizer, e.entry.message)))
  }

  lemma StepIsStepped(cfg: EngineConfig, events: seq<Event>, o: Outcome, e: Event)
    requires Sound(o.state.drain) && |o.verdicts| == |events|
    ensures var (s, v) := Step(cfg, o.state, e); Stepped(cfg, events, o, e, Outcome(s, o.verdicts + [v]))
  {
    hide Add, Covers;
    var (s, v) := Step(cfg, o.state, e);
    assert (o.verdicts + [v])[..|events|] == o.verdicts;
    if e.Process? && v.Passed? {
      AddCovers(cfg.drain, o.state.drain, Tokenize(cfg.drain.tokenizer, e.entry.message));
      ScanItoa(v.mined.clusterID);
      if Suppressed(v) {
        assert v.mined.clusterID in s.drain.clusters;
      }
    }
  }

  lemma AllRepresentedStep(cfg: EngineConfig, events: seq<Event>, o: Outcome, e: Event, o': Outcome)
    requires |o.verdicts| == |events| && Injective(cfg.hash)
    requires Accounted(cfg, events, o) && Stepped(cfg, events, o, e, o')
    ensures AllRepresented(cfg, events + [e], o')
  {
    hide Covers, Suppressed, Represented, CacheSeen, ClustersCreated;
    var n, all := |events|, events + [e];
    forall k | 0 <= k < |all| && all[k].Process?
      ensures Represented(cfg, all, o', all[k].entry.message, if Suppressed(o'.verdicts[k]) then k else k + 1)
    {
      if k < n {
        assert o'.verdicts[k] == o'.verdicts[..n][k];
        StillRepresented(cfg, events, o, e, o', events[k].entry.message,
          if Suppressed(o.verdicts[k]) then k else k + 1);
      } else {
        NewestRepresented(cfg, events, o, e, o');
      }
    }
  }

  lemma CacheSeenStep(cfg: EngineConfig, events: seq<Event>, o: Outcome, e: Event, o': Outcome)
    requires |o.verdicts| == |events| && CacheSeen(cfg, events, o) && Stepped(cfg, events, o, e, o')
    ensures CacheSeen(cfg, events + [e], o')
  {
    hide Covers, Suppressed;
    var n, all := |events|, events + [e];
    forall f | f in o'.state.cache
      ensures exists k :: 0 <= k < |all| && all[k].Process? && cfg.hash(all[k].entry.message) == f
    {
      if f in o.state.cache {
        var k :| 0 <= k < n && events[k].Process? && cfg.hash(events[k].entry.message) == f;
        assert all[k] == events[k];
      } else {
        assert all[n] == e;
      }
    }
  }

  lemma ClustersCreatedStep(cfg: EngineConfig, events: seq<Event>, o: Outcome, e: Event, o': Outcome)
    requires |o.verdicts| == |events| && ClustersCreated(events, o) && Stepped(cfg, events, o, e, o')
    ensures ClustersCreated(events + [e], o')
  {
    hide Covers, Suppressed;
    var n, all := |events|, events + [e];
    forall id | id in o'.state.drain.clusters ensures exists j :: 0 <= j < |all| && IsCreator(all, o', j, id) {
      if id in o.state.drain.clusters {
        var j :| 0 <= j < n && IsCreator(events, o, j, id);
        assert all[j] == events[j] && o'.verdicts[j] == o'.verdicts[..n][j];
        assert IsCreator(all, o', j, id);
      } else {
        assert IsCreator(all, o', n, id);
      }
    }
  }

  /** The last event: emitted itself, or its text was cached, or its cluster has a creator. */
  lemma NewestRepresented(cfg: EngineConfig, events: seq<Event>, o: Outcome, e: Event, o': Outcome)
    requires |o.verdicts| == |events| && Injective(cfg.hash) && e.Process?
    requires Accounted(cfg, events, o) && Stepped(cfg, events, o, e, o')
    ensures Represented(cfg, events + [e], o', e.entry.message,
      if Suppressed(o'.verdicts[|events|]) then |events| else |events| + 1)
  {
    hide Covers;
    var n, all, m, v := |events|, events + [e], e.entry.message, o'.verdicts[|events|];
    if !Suppressed(v) {
      assert Represents(cfg, all, o', n, m);
    } else if cfg.hash(m) in o.state.cache {
      var k :| 0 <= k < n && events[k].Process? && cfg.hash(events[k].entry.message) == cfg.hash(m);
      assert events[k].entry.message == m;
      StillRepresented(cfg, events, o, e, o', m, if Suppressed(o.verdicts[k]) then k else k + 1);
      var j :| 0 <= j < (if Suppressed(o.verdicts[k]) then k else k + 1) && Represents(cfg, all, o', j, m);
      assert j < n;
    } else {
      var id :| id in o.state.drain.clusters && id in o'.state.drain.clusters
        && Covers(o'.state.drain.clusters[id].template, Tokenize(cfg.drain.tokenizer, m));
      var j :| 0 <= j < n && IsCreator(events, o, j, id);
      assert all[j] == events[j] && o'.verdicts[j] == o'.verdicts[..n][j];
      assert CoversNow(cfg, o'.state, o'.verdicts[j], m);
      assert Represents(cfg, all, o', j, m);
    }
  }

  lemma AccountedStep(cfg: EngineConfig, events: seq<Event>, o: Outcome, e: Event, o': Outcome)
    requires |o.verdicts| == |events| && Injective(cfg.hash)
    requires Accounted(cfg, events, o) && Stepped(cfg, events, o, e, o')
    ensures |o'.verdicts| == |events| + 1 && Accounted(cfg, events + [e], o')
  {
    hide AllRepresented, CacheSeen, ClustersCreated;
    AllRepresentedStep(cfg, events, o, e, o');
    CacheSeenStep(cfg, events, o, e, o');
    ClustersCreatedStep(cfg, events, o, e, o');
  }

  lemma {:induction false} RunIsAccounted(cfg: EngineConfig, events: seq<Event>)
    requires Injective(cfg.hash)
    ensures Accounted(cfg, events, Run(cfg, events))
  {
    hide Step, Accounted, Stepped;
    if events == [] {
      EmptyIsAccounted(cfg);
    } else {
      var init, e := events[..|events| - 1], events[|events| - 1];
      RunIsAccounted(cfg, init);
      StepIsStepped(cfg, init, Run(cfg, init), e);
      RunLast(cfg, init, e);
      AccountedStep(cfg, init, Run(cfg, init), e, Run(cfg, init + [e]));
      assert init + [e] == events;
    }
  }

  lemma EmptyIsAccounted(cfg: EngineConfig)
    ensures Accounted(cfg, [], Run(cfg, []))
  {
  }

  /** Each suppressed entry has an earlier emitted one: the same text, or the creator of a cluster that covers it. */
  lemma NothingSuppressedWithoutRepresentative(cfg: EngineConfig, events: seq<Event>, k: nat)
    requires Injective(cfg.hash) && k < |events| && events[k].Process?
    requires Suppressed(Run(cfg, events).verdicts[k])
    ensures exists j :: 0 <= j < k && Represents(cfg, events, Run(cfg, events), j, events[k].entry.message)
  {
    RunIsAccounted(cfg, events);
  }

  // Context

  /** The entries that got past the cache, in order. */
  function PassedEntries(events: seq<Event>, verdicts: seq<Verdict>): seq<LogEntry>
    requires |events| == |verdicts|
  {
    if events == [] then []
    else
      var n := |events| - 1;
      PassedEntries(events[..n], verdicts[..n])
      + (if verdicts[n].Passed? && events[n].Process? then [events[n].entry] else [])
  }

  lemma {:induction false} HistoryIsPassed(cfg: EngineConfig, events: seq<Event>)
    ensures Run(cfg, events).state.history == PassedEntries(events, Run(cfg, events).verdicts)
  {
    hide Add, Covers, Sound;
    if events != [] {
      var n := |events| - 1;
      HistoryIsPassed(cfg, events[..n]);
      assert Run(cfg, events).verdicts[..n] == Run(cfg, events[..n]).verdicts;
    }
  }

  /** An error that gets past the cache brings exactly the last entries that did, then itself. */
  lemma ContextIsRecentHistory(cfg: EngineConfig, init: seq<Event>, e: Event)
    requires e.Process? && ShouldPreserveContext(e.entry)
    ensures var v := Run(cfg, init + [e]).verdicts[|init|];
      v.Passed? ==>
        && Emitted(v)
        && v.result.context == LastOf(PassedEntries(init, Run(cfg, init).verdicts), cfg.contextLines) + [e.entry]
  {
    hide Add, Sound;
    HistoryIsPassed(cfg, init);
    RunLast(cfg, init, e);
  }

  // Passages of the same text

  function StartOf(e: Event): int { if e.Process? then e.checkedAt else e.at }

  function EndOf(e: Event): int { if e.Process? then e.addedAt else e.at }

  /** The clock does not run backwards, within an event and between events. */
  ghost predicate Timed(events: seq<Event>) {
    && (forall i :: 0 <= i < |events| ==> StartOf(events[i]) <= EndOf(events[i]))
    && (forall i, j :: 0 <= i < j < |events| ==> EndOf(events[i]) <= StartOf(events[j]))
  }

  /** After the i-th event got past the cache, its text is cached for the time to live at least. */
  ghost predicate CachedUntil(cfg: EngineConfig, events: seq<Event>, i: nat, n: nat)
    requires i < n <= |events| && events[i].Process?
  {
    var cache, f := Run(cfg, events[..n]).state.cache, cfg.hash(events[i].entry.message);
    var until := events[i].addedAt + cfg.ttl;
    (f in cache && cache[f] >= until) || EndOf(events[n - 1]) > until
  }

  lemma CachedStep(cfg: EngineConfig, events: seq<Event>, i: nat, n: nat)
    requires Timed(events) && i < n < |events| && events[i].Process? && CachedUntil(cfg, events, i, n)
    ensures CachedUntil(cfg, events, i, n + 1)
  {
    hide Add, Sound;
    RunLast(cfg, events[..n], events[n]);
    assert events[..n] + [events[n]] == events[..n + 1];
    assert EndOf(events[n - 1]) <= StartOf(events[n]) <= EndOf(events[n]);
    assert EndOf(events[i]) <= EndOf(events[n]) by {
      assert EndOf(events[i]) <= StartOf(events[n]);
    }
  }

  lemma {:induction false} StaysCached(cfg: EngineConfig, events: seq<Event>, i: nat, n: nat)
    requires Timed(events) && i < n <= |events| && events[i].Process? && Run(cfg, events).verdicts[i].Passed?
    ensures CachedUntil(cfg, events, i, n)
    decreases n
  {
    hide Step;
    if n == i + 1 {
      VerdictOf(cfg, events, i);
      PassedIsCached(cfg, events[..i], events[i]);
      assert events[..i] + [events[i]] == events[..n];
    } else {
      StaysCached(cfg, events, i, n - 1);
      CachedStep(cfg, events, i, n - 1);
    }
  }

  lemma PassedIsCached(cfg: EngineConfig, init: seq<Event>, e: Event)
    requires e.Process? && Step(cfg, Run(cfg, init).state, e).1.Passed?
    ensures var cache := Run(cfg, init + [e]).state.cache;
      cfg.hash(e.entry.message) in cache && cache[cfg.hash(e.entry.message)] == e.addedAt + cfg.ttl
  {
    hide Add, Sound;
    RunLast(cfg, init, e);
  }

  /** The verdict on an event depends on the events before it only. */
  lemma {:induction false} VerdictOf(cfg: EngineConfig, events: seq<Event>, i: nat)
    requires i < |events|
    ensures Run(cfg, events).verdicts[i] == Step(cfg, Run(cfg, events[..i]).state, events[i]).1
    decreases |events|
  {
    hide Step;
    var n := |events| - 1;
    if i < n {
      VerdictOf(cfg, events[..n], i);
      assert events[..n][..i] == events[..i];
    }
  }

  /** Two passages of the same text are more than the time to live apart. */
  lemma PassagesAreApart(cfg: EngineConfig, events: seq<Event>, i: nat, j: nat)
    requires Timed(events) && i < j < |events| && events[i].Process? && events[j].Process?
    requires events[i].entry.message == events[j].entry.message
    requires Run(cfg, events).verdicts[i].Passed? && Run(cfg, events).verdicts[j].Passed?
    ensures events[j].checkedAt > events[i].addedAt + cfg.ttl
  {
    hide Add, Sound;
    StaysCached(cfg, events, i, j);
    VerdictOf(cfg, events, j);
    assert EndOf(events[j - 1]) <= StartOf(events[j]);
  }

  /** k passages of the same text take more than k - 1 times the time to live. */
  lemma {:induction false} PassagesTakeTime(cfg: EngineConfig, events: seq<Event>, at: seq<nat>)
    requires Timed(events) && |at| >= 2
    requires forall k :: 0 <= k < |at| ==>
      at[k] < |events| && events[at[k]].Process? && Run(cfg, events).verdicts[at[k]].Passed?
    requires forall k :: 0 <= k < |at| ==> events[at[k]].entry.message == events[at[0]].entry.message
    requires forall k, l :: 0 <= k < l < |at| ==> at[k] < at[l]
    ensures events[at[|at| - 1]].addedAt - events[at[0]].addedAt > (|at| - 1) * cfg.ttl
  {
    hide Run, Step;
    var n := |at| - 1;
    PassagesAreApart(cfg, events, at[n - 1], at[n]);
    assert StartOf(events[at[n]]) <= EndOf(events[at[n]]);
    if n > 1 {
      PassagesTakeTime(cfg, events, at[..n]);
    }
  }

  // Which passages are skipped

  /**
   * Past the cache, an entry is a duplicate iff it joined a cluster; it is emitted unless it is one and no error.
   * The result names the cluster.
   */
  lemma EmittedExactly(cfg: EngineConfig, events: seq<Event>, e: Event)
    requires e.Process?
    ensures var v := Step(cfg, Run(cfg, events).state, e).1;
      v.Passed? ==>
        && (v.result.isDuplicate <==> v.mined.changeType == TemplateChanged || v.mined.changeType == SizeChanged)
        && (Emitted(v) <==> !v.result.isDuplicate || e.entry.level in ["ERROR", "FATAL", "PANIC"])
        && ScanInt(v.result.templateID) == Some(v.mined.clusterID)
        && v.result.fingerprint == cfg.hash(e.entry.message)
    ensures ShouldPreserveContext(e.entry) <==> e.entry.level in ["ERROR", "FATAL", "PANIC"]
  {
    hide Add, Run, Covers;
    var s := Run(cfg, events).state;
    var leaf := AddSteps(cfg.drain, s.drain, Tokenize(cfg.drain.tokenizer, e.entry.message));
    ScanItoa(Add(cfg.drain, s.drain, Tokenize(cfg.drain.tokenizer, e.entry.message)).1.clusterID);
  }
}
