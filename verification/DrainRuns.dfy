/** Theorems about every run of Drain3 since it was created or reset. */
module DrainRuns {
  import opened Text
  import opened Tokenizer
  import opened DrainModel
  import opened DrainInvariants
  import opened DrainStability

  datatype Outcome = Outcome(state: State, history: History, results: seq<Result>)

  ghost predicate Tokenized(msgs: seq<Tokens>) {
    forall i :: 0 <= i < |msgs| ==> AllWords(msgs[i])
  }

  /** The run over a list of tokenised messages. */
  ghost function Run(cfg: Config, msgs: seq<Tokens>): (o: Outcome)
    ensures WellFormed(o.state) && Closed(o.state.tree) && |o.results| == |msgs|
  {
    if msgs == [] then Outcome(INITIAL, map[], [])
    else
      var o := Run(cfg, msgs[..|msgs| - 1]);
      var m := msgs[|msgs| - 1];
      var (s, r) := Add(cfg, o.state, m);
      WellFormedAfter(cfg, o.state, m);
      Outcome(s, Record(o.history, r, m), o.results + [r])
  }

  lemma RunLast(cfg: Config, init: seq<Tokens>, m: Tokens)
    ensures var o := Run(cfg, init);
      var (s, r) := Add(cfg, o.state, m);
      Run(cfg, init + [m]) == Outcome(s, Record(o.history, r, m), o.results + [r])
  {
    hide Add, Record;
    assert (init + [m])[..|init|] == init;
  }

  /** Every state of every run satisfies the invariant. */
  lemma {:induction false} RunKeepsInv(cfg: Config, msgs: seq<Tokens>)
    requires Tokenized(msgs)
    ensures Inv(cfg, Run(cfg, msgs).state, Run(cfg, msgs).history)
  {
    if msgs == [] {
      InitialInv(cfg);
    } else {
      var init := msgs[..|msgs| - 1];
      RunKeepsInv(cfg, init);
      AddKeepsInv(cfg, Run(cfg, init).state, Run(cfg, init).history, msgs[|msgs| - 1]);
    }
  }

  // Templates

  /** The messages whose result names the cluster, in order. */
  ghost function Assigned(msgs: seq<Tokens>, results: seq<Result>, id: nat): seq<Tokens>
    requires |msgs| == |results|
  {
    if msgs == [] then []
    else
      var n := |msgs| - 1;
      Assigned(msgs[..n], results[..n], id)
        + (if results[n].changeType != Nothing && results[n].clusterID == id then [msgs[n]] else [])
  }

  /** A result names a new cluster exactly when it says so. */
  lemma ResultNamesCluster(cfg: Config, s: State, h: History, tokens: Tokens)
    requires Ids(s, h) && WellFormed(s)
    ensures var r := Add(cfg, s, tokens).1;
      && (r.changeType == Created ==> r.clusterID !in h)
      && (r.changeType == TemplateChanged || r.changeType == SizeChanged ==> r.clusterID in h)
  {
  }

  lemma LastResult(cfg: Config, msgs: seq<Tokens>, m: Tokens)
    requires Tokenized(msgs)
    ensures var o := Run(cfg, msgs);
      var r := Add(cfg, o.state, m).1;
      && (r.changeType == Created ==> r.clusterID !in o.history)
      && (r.changeType == TemplateChanged || r.changeType == SizeChanged ==> r.clusterID in o.history)
  {
    RunKeepsInv(cfg, msgs);
    ResultNamesCluster(cfg, Run(cfg, msgs).state, Run(cfg, msgs).history, m);
  }

  lemma AssignedStep(msgs: seq<Tokens>, results: seq<Result>, h: History, m: Tokens, r: Result, id: nat)
    requires |msgs| == |results|
    requires r.changeType == Created ==> r.clusterID !in h
    requires r.changeType == TemplateChanged || r.changeType == SizeChanged ==> r.clusterID in h
    requires Assigned(msgs, results, id) == if id in h then h[id] else []
    ensures var h' := Record(h, r, m);
      Assigned(msgs + [m], results + [r], id) == if id in h' then h'[id] else []
  {
  }

  ghost predicate HistoryMatches(msgs: seq<Tokens>, o: Outcome, id: nat)
    requires |msgs| == |o.results|
  {
    Assigned(msgs, o.results, id) == if id in o.history then o.history[id] else []
  }

  lemma HistoryMatchesLast(cfg: Config, init: seq<Tokens>, m: Tokens, id: nat)
    requires Tokenized(init) && HistoryMatches(init, Run(cfg, init), id)
    ensures HistoryMatches(init + [m], Run(cfg, init + [m]), id)
  {
    hide Run, Add;
    var o := Run(cfg, init);
    LastResult(cfg, init, m);
    AssignedStep(init, o.results, o.history, m, Add(cfg, o.state, m).1, id);
    RunLast(cfg, init, m);
  }

  lemma {:induction false} HistoryIsAssigned(cfg: Config, msgs: seq<Tokens>, id: nat)
    requires Tokenized(msgs)
    ensures HistoryMatches(msgs, Run(cfg, msgs), id)
  {
    hide Add, Record;
    if msgs != [] {
      var init, m := msgs[..|msgs| - 1], msgs[|msgs| - 1];
      HistoryIsAssigned(cfg, init, id);
      HistoryMatchesLast(cfg, init, m, id);
      assert init + [m] == msgs;
    }
  }

  /** The cluster stands for these messages: their common tokens, wildcards elsewhere, and their number. */
  ghost predicate IsLeastGeneralization(c: Cluster, mine: seq<Tokens>) {
    && Aligned(mine)
    && c.size == |mine|
    && |c.template| == |mine[0]|
    && (forall i :: 0 <= i < |mine[0]| ==>
          (c.template[i] == if forall k :: 0 <= k < |mine| ==> mine[k][i] == mine[0][i] then mine[0][i] else WILDCARD))
    && (forall k :: 0 <= k < |mine| ==> Covers(c.template, mine[k]))
  }

  /** Every template is the least generalisation of the messages assigned to its cluster. */
  lemma TemplatesAreLeastGeneralizations(cfg: Config, msgs: seq<Tokens>, id: nat)
    requires Tokenized(msgs)
    ensures var o := Run(cfg, msgs);
      id in o.state.clusters ==> IsLeastGeneralization(o.state.clusters[id], Assigned(msgs, o.results, id))
  {
    var o := Run(cfg, msgs);
    RunKeepsInv(cfg, msgs);
    HistoryIsAssigned(cfg, msgs, id);
    if id in o.state.clusters {
      LggIsLeast(Assigned(msgs, o.results, id));
    }
  }

  lemma LggIsLeast(mine: seq<Tokens>)
    requires Aligned(mine)
    ensures IsLeastGeneralization(Cluster(Lgg(mine), |mine|), mine)
  {
    forall k | 0 <= k < |mine| ensures Covers(Lgg(mine), mine[k]) {
      LggCovers(mine, k);
    }
    forall i | 0 <= i < |mine[0]|
      ensures Unanimous(mine, i) <==> forall k :: 0 <= k < |mine| ==> mine[k][i] == mine[0][i]
    {
    }
  }

  /** The two clusters exist, and the same messages were assigned to both, in any order and number. */
  ghost predicate SameMessages(a: Outcome, msgs: seq<Tokens>, id: nat, b: Outcome, msgs': seq<Tokens>, id': nat)
    requires |a.results| == |msgs| && |b.results| == |msgs'|
  {
    && id in a.state.clusters && id' in b.state.clusters
    && forall m :: m in Assigned(msgs, a.results, id) <==> m in Assigned(msgs', b.results, id')
  }

  /** Runs that assign the same set of messages to two clusters give them the same template. */
  lemma TemplatesForgetOrder(cfg: Config, msgs: seq<Tokens>, id: nat, msgs': seq<Tokens>, id': nat)
    requires Tokenized(msgs) && Tokenized(msgs')
    ensures var a, b := Run(cfg, msgs), Run(cfg, msgs');
      SameMessages(a, msgs, id, b, msgs', id') ==> a.state.clusters[id].template == b.state.clusters[id'].template
  {
    var a, b := Run(cfg, msgs), Run(cfg, msgs');
    if SameMessages(a, msgs, id, b, msgs', id') {
      RunKeepsInv(cfg, msgs);
      RunKeepsInv(cfg, msgs');
      HistoryIsAssigned(cfg, msgs, id);
      HistoryIsAssigned(cfg, msgs', id');
      LggOrderIndependent(a.history[id], b.history[id']);
    }
  }

  // The tree

  /** The shape of the tree in every reachable state. */
  lemma TreeShape(cfg: Config, msgs: seq<Tokens>, p: Path, id: nat)
    requires Tokenized(msgs)
    ensures var o := Run(cfg, msgs);
      && Closed(o.state.tree)
      && (p in o.state.tree && id in o.state.tree[p] ==>
            var mine := Assigned(msgs, o.results, id);
            && id in o.state.clusters && Aligned(mine)
            && |mine[0]| == |o.state.clusters[id].template|
            && (p == LeafPath(cfg, mine[0]) || p == WildLeaf(cfg, |mine[0]|)))
      && (p in o.state.tree ==>
            && (forall i, j :: 0 <= i < j < |o.state.tree[p]| ==> o.state.tree[p][i] != o.state.tree[p][j])
            && (cfg.maxChildren > 0 && !AllWild(p) ==> |o.state.tree[p]| <= cfg.maxChildren))
  {
    RunKeepsInv(cfg, msgs);
    HistoryIsAssigned(cfg, msgs, id);
    var o := Run(cfg, msgs);
    if p in o.state.tree && id in o.state.tree[p] {
      assert ListedAt(cfg, o.state, o.history, p, id);
    }
    assert p in o.state.tree ==> Distinct(o.state.tree[p]) && Bounded(cfg, p, o.state.tree[p]);
  }

  /** The levels of the tree: the length level and the token levels. */
  function DepthLimit(cfg: Config): nat { if cfg.maxNodeDepth <= 1 then 1 else cfg.maxNodeDepth }

  ghost predicate IsShallow(cfg: Config, tree: Tree) { forall p :: p in tree ==> Depth(p) <= DepthLimit(cfg) }

  lemma GrowsShallow(cfg: Config, tree: Tree, tokens: Tokens)
    requires IsShallow(cfg, tree)
    ensures IsShallow(cfg, Grow(cfg, tree, tokens)) && IsShallow(cfg, GrowWild(cfg, tree, tokens))
  {
    var n, k := |tokens|, Levels(cfg, |tokens|);
    EnsureWayNodes(tree, tokens, k);
    EnsureWildNodes(tree, tokens, k);
    forall j | 0 <= j <= k ensures Depth(WayTo(n, tokens, j)) == j + 1 {
      DepthOfWay(n, tokens, j);
    }
    forall j | 0 <= j <= k ensures Depth(Wilds(n, j)) == j + 1 {
      DepthOfWilds(n, j);
    }
  }

  lemma AddKeepsShallow(cfg: Config, s: State, tokens: Tokens)
    requires WellFormed(s) && IsShallow(cfg, s.tree)
    ensures IsShallow(cfg, Add(cfg, s, tokens).0.tree)
  {
    if tokens != [] {
      GrowsShallow(cfg, s.tree, tokens);
      if Search(cfg, s, tokens).Some? {
        var t := s.clusters[Search(cfg, s, tokens).value].template;
        if |t| == |tokens| {
          GrowsShallow(cfg, s.tree, Generalize(t, tokens));
        }
      }
    }
  }

  /** The tree never gets deeper than the configured number of levels. */
  lemma {:induction false} TreeIsShallow(cfg: Config, msgs: seq<Tokens>)
    ensures IsShallow(cfg, Run(cfg, msgs).state.tree)
  {
    hide Add, IsShallow, Record;
    if msgs == [] {
      RootIsShallow(cfg);
    } else {
      var init := msgs[..|msgs| - 1];
      TreeIsShallow(cfg, init);
      AddKeepsShallow(cfg, Run(cfg, init).state, msgs[|msgs| - 1]);
    }
  }

  lemma RootIsShallow(cfg: Config)
    ensures IsShallow(cfg, INITIAL.tree)
  {
  }

  /** The cluster, if its template is no longer its first message, is listed on the wildcard leaf of its length. */
  ghost predicate StaysAttached(cfg: Config, msgs: seq<Tokens>, id: nat) {
    var o := Run(cfg, msgs);
    id in o.state.clusters ==>
      var t, mine := o.state.clusters[id].template, Assigned(msgs, o.results, id);
      mine != [] && (t != mine[0] && Levels(cfg, |t|) > 0 ==>
        WildLeaf(cfg, |t|) in o.state.tree && id in o.state.tree[WildLeaf(cfg, |t|)])
  }

  /** So it is when leaves have no limit, or no message starts with literal wildcards down to its leaf. */
  lemma GeneralizedStaysAttached(cfg: Config, msgs: seq<Tokens>, id: nat)
    requires Tokenized(msgs) && (cfg.maxChildren <= 0 || forall i :: 0 <= i < |msgs| ==> HasLiteral(cfg, msgs[i]))
    ensures StaysAttached(cfg, msgs, id)
  {
    hide Add, Run;
    var o := Run(cfg, msgs);
    RunKeepsInv(cfg, msgs);
    HistoryIsAssigned(cfg, msgs, id);
    if cfg.maxChildren > 0 {
      forall c, k | c in o.history && 0 <= k < |o.history[c]| ensures HasLiteral(cfg, o.history[c][k]) {
        HistoryIsAssigned(cfg, msgs, c);
        AssignedAreMessages(msgs, o.results, c, k);
      }
    }
    assert Plain(cfg, o.history);
  }

  lemma {:induction false} AssignedAreMessages(msgs: seq<Tokens>, results: seq<Result>, id: nat, k: nat)
    requires |msgs| == |results| && k < |Assigned(msgs, results, id)|
    ensures Assigned(msgs, results, id)[k] in msgs
  {
    var n := |msgs| - 1;
    if k < |Assigned(msgs[..n], results[..n], id)| {
      AssignedAreMessages(msgs[..n], results[..n], id, k);
    }
  }

  // Repeat stability

  /** Adding a message and adding it again: found again, fully similar, only the size changes. */
  ghost predicate RepeatsStably(cfg: Config, s: State, tokens: Tokens)
    requires WellFormed(s) && tokens != []
  {
    var (s1, r1) := Add(cfg, s, tokens);
    var id := r1.clusterID;
    && WellFormed(s1)
    && Search(cfg, s1, tokens) == Some(id)
    && Similarity(s1.clusters[id].template, tokens) == 1.0
    && var (s2, r2) := Add(cfg, s1, tokens);
       && r2 == r1.(changeType := SizeChanged, clusterSize := r1.clusterSize + 1)
       && s2 == s1.(clusters := s1.clusters[id := s1.clusters[id].(size := s1.clusters[id].size + 1)])
  }

  lemma StableStep(cfg: Config, s: State, h: History, tokens: Tokens)
    requires Inv(cfg, s, h) && WellFormed(s) && tokens != [] && AllWords(tokens) && cfg.simThreshold <= 1.0
    ensures var (s1, r1) := Add(cfg, s, tokens);
      && WellFormed(s1)
      && Search(cfg, s1, tokens) == Some(r1.clusterID)
      && Covers(s1.clusters[r1.clusterID].template, tokens)
      && r1.templateMined == Join(s1.clusters[r1.clusterID].template, " ")
      && r1.clusterSize == s1.clusters[r1.clusterID].size
      && r1.clusterCount == |s1.clusters|
  {
    var (s1, r1) := Add(cfg, s, tokens);
    AddKeepsInv(cfg, s, h, tokens);
    InvIsWellFormed(cfg, s1, Record(h, r1, tokens));
    if Search(cfg, s, tokens).Some? {
      StableAfterMerge(cfg, s, h, s1, tokens, r1.clusterID);
    } else {
      CreateEffect(cfg, s, tokens);
      StableAfterCreate(cfg, s, h, s1, tokens);
    }
  }

  lemma AddCovered(cfg: Config, s: State, tokens: Tokens, id: nat)
    requires WellFormed(s) && tokens != [] && Search(cfg, s, tokens) == Some(id)
      && Covers(s.clusters[id].template, tokens)
    ensures var (s', r) := Add(cfg, s, tokens);
      var c := s.clusters[id];
      && s' == s.(clusters := s.clusters[id := c.(size := c.size + 1)])
      && r == Result(SizeChanged, id, c.size + 1, |s.clusters|, Join(c.template, " "))
  {
    GeneralizeCovers(s.clusters[id].template, tokens);
    assert |s.clusters[id := s.clusters[id].(size := s.clusters[id].size + 1)]| == |s.clusters|;
  }

  /** With a threshold above 1 no search ever finds a cluster. */
  lemma NothingFoundAboveOne(cfg: Config, s: State, tokens: Tokens)
    requires WellFormed(s) && tokens != [] && cfg.simThreshold > 1.0
    ensures Search(cfg, s, tokens).None?
  {
    if SearchLeaf(cfg, s, tokens).Some? {
      var ids := s.tree[SearchLeaf(cfg, s, tokens).value];
      BestIsFirstMaximum(cfg.simThreshold, s.clusters, ids, tokens);
      forall i | 0 <= i < |ids| ensures Similarity(s.clusters[ids[i]].template, tokens) <= 1.0 {
        SimilarityRange(s.clusters[ids[i]].template, tokens);
      }
    }
  }

  /** In every reachable state, for every message: stable iff the threshold is at most 1. */
  lemma RepeatStability(cfg: Config, msgs: seq<Tokens>, tokens: Tokens)
    requires Tokenized(msgs) && tokens != [] && AllWords(tokens)
    ensures RepeatsStably(cfg, Run(cfg, msgs).state, tokens) <==> cfg.simThreshold <= 1.0
  {
    var o := Run(cfg, msgs);
    var (s1, r1) := Add(cfg, o.state, tokens);
    RunKeepsInv(cfg, msgs);
    if cfg.simThreshold <= 1.0 {
      StableStep(cfg, o.state, o.history, tokens);
      SimilarityRange(s1.clusters[r1.clusterID].template, tokens);
      AddCovered(cfg, s1, tokens, r1.clusterID);
    } else {
      AddKeepsInv(cfg, o.state, o.history, tokens);
      InvIsWellFormed(cfg, s1, Record(o.history, r1, tokens));
      NothingFoundAboveOne(cfg, s1, tokens);
    }
  }

  // Conservation

  function LengthOf(c: Cluster): nat { |c.template| }

  function WildcardsOf(c: Cluster): nat { Wildcards(c.template) }

  function Wildcards(t: Tokens): (k: nat)
    ensures k <= |t|
  {
    if t == [] then 0 else (if t[0] == WILDCARD then 1 else 0) + Wildcards(t[1..])
  }

  /** Generalising adds wildcards, at least one when the template changes. */
  lemma {:induction false} WildcardsGrow(t: Tokens, m: Tokens)
    requires |t| == |m|
    ensures Wildcards(Generalize(t, m)) >= Wildcards(t)
    ensures Generalize(t, m) != t ==> Wildcards(Generalize(t, m)) > Wildcards(t)
  {
    if t != [] {
      GeneralizeStep(t, m);
      WildcardsGrow(t[1..], m[1..]);
      WildcardsStep(t);
      WildcardsStep(Generalize(t, m));
      hide Generalize, Wildcards;
      assert t == [t[0]] + t[1..];
    }
  }

  lemma WildcardsStep(t: Tokens)
    requires t != []
    ensures Wildcards(t) == (if t[0] == WILDCARD then 1 else 0) + Wildcards(t[1..])
  {
  }

  lemma GeneralizeStep(t: Tokens, m: Tokens)
    requires |t| == |m| > 0
    ensures Generalize(t, m)[1..] == Generalize(t[1..], m[1..])
    ensures var g := Generalize(t, m);
      g == [g[0]] + g[1..] && g[0] == if t[0] == m[0] then t[0] else WILDCARD
  {
  }

  lemma {:induction false} WildcardsBounded(clusters: Clusters, n: nat)
    ensures Total(clusters, n, WildcardsOf) <= Total(clusters, n, LengthOf)
  {
    if n > 0 {
      WildcardsBounded(clusters, n - 1);
    }
  }

  ghost function CountNonEmpty(msgs: seq<Tokens>): nat {
    if msgs == [] then 0 else CountNonEmpty(msgs[..|msgs| - 1]) + (if msgs[|msgs| - 1] == [] then 0 else 1)
  }

  ghost function CountChanges(results: seq<Result>, kind: ChangeType): nat {
    if results == [] then 0
    else CountChanges(results[..|results| - 1], kind) + (if results[|results| - 1].changeType == kind then 1 else 0)
  }

  lemma StepTotals(cfg: Config, s: State, h: History, tokens: Tokens)
    requires Inv(cfg, s, h) && WellFormed(s) && AllWords(tokens)
    ensures var (s', r) := Add(cfg, s, tokens);
      && Total(s'.clusters, s'.clusterID, SizeOf)
         == Total(s.clusters, s.clusterID, SizeOf) + (if tokens == [] then 0 else 1)
      && Total(s'.clusters, s'.clusterID, WildcardsOf) >= Total(s.clusters, s.clusterID, WildcardsOf)
         + (if r.changeType == TemplateChanged then 1 else 0)
      && s'.clusterID == s.clusterID + (if r.changeType == Created then 1 else 0)
  {
    hide Reindex, Listings, Attached, Closed, EnsureWay;
    var (s', r) := Add(cfg, s, tokens);
    if tokens != [] {
      if Search(cfg, s, tokens).Some? {
        var id := r.clusterID;
        SearchFinds(cfg, s, tokens);
        WildcardsGrow(s.clusters[id].template, tokens);
        TotalUpdate(s.clusters, s.clusterID, SizeOf, id, s'.clusters[id]);
        TotalUpdate(s.clusters, s.clusterID, WildcardsOf, id, s'.clusters[id]);
      } else {
        var n := s.clusterID + 1;
        TotalFrame(s.clusters, s'.clusters, s.clusterID, SizeOf);
        TotalFrame(s.clusters, s'.clusters, s.clusterID, WildcardsOf);
      }
    }
  }

  /** What the counters of a run add up to. */
  ghost predicate Conserved(msgs: seq<Tokens>, s: State, results: seq<Result>) {
    && s.clusterID == CountChanges(results, Created)
    && Total(s.clusters, s.clusterID, SizeOf) == CountNonEmpty(msgs)
    && CountChanges(results, TemplateChanged) <= Total(s.clusters, s.clusterID, WildcardsOf)
  }

  lemma ConservedStep(cfg: Config, msgs: seq<Tokens>, s: State, h: History, results: seq<Result>, m: Tokens)
    requires Inv(cfg, s, h) && WellFormed(s) && AllWords(m) && Conserved(msgs, s, results)
    ensures var (s', r) := Add(cfg, s, m); Conserved(msgs + [m], s', results + [r])
  {
    var r := Add(cfg, s, m).1;
    StepTotals(cfg, s, h, m);
    assert (msgs + [m])[..|msgs|] == msgs && (results + [r])[..|results|] == results;
  }

  lemma ConservedLast(cfg: Config, init: seq<Tokens>, m: Tokens)
    requires Tokenized(init) && AllWords(m) && Conserved(init, Run(cfg, init).state, Run(cfg, init).results)
    ensures Conserved(init + [m], Run(cfg, init + [m]).state, Run(cfg, init + [m]).results)
  {
    hide Run, Add, Conserved;
    var o := Run(cfg, init);
    RunKeepsInv(cfg, init);
    ConservedStep(cfg, init, o.state, o.history, o.results, m);
    RunLast(cfg, init, m);
  }

  lemma {:induction false} RunConserves(cfg: Config, msgs: seq<Tokens>)
    requires Tokenized(msgs)
    ensures var o := Run(cfg, msgs); Conserved(msgs, o.state, o.results)
  {
    hide Add, Record;
    if msgs != [] {
      var init, m := msgs[..|msgs| - 1], msgs[|msgs| - 1];
      RunConserves(cfg, init);
      ConservedLast(cfg, init, m);
      assert init + [m] == msgs;
    }
  }

  /** Sizes sum to the tokenised messages, ids count creations, and template changes are bounded. */
  lemma Conservation(cfg: Config, msgs: seq<Tokens>)
    requires Tokenized(msgs)
    ensures var o := Run(cfg, msgs);
      && (forall id :: id in o.state.clusters <==> 1 <= id <= o.state.clusterID)
      && o.state.clusterID == CountChanges(o.results, Created)
      && Total(o.state.clusters, o.state.clusterID, SizeOf) == CountNonEmpty(msgs)
      && CountChanges(o.results, TemplateChanged) <= Total(o.state.clusters, o.state.clusterID, LengthOf)
  {
    var o := Run(cfg, msgs);
    RunConserves(cfg, msgs);
    RunKeepsInv(cfg, msgs);
    WildcardsBounded(o.state.clusters, o.state.clusterID);
  }

  lemma {:induction false} CardinalityOfIds(clusters: Clusters, n: nat)
    requires forall id :: id in clusters <==> 1 <= id <= n
    ensures |clusters| == n
  {
    if n == 0 {
      assert clusters == map[];
    } else {
      var rest := clusters - {n};
      CardinalityOfIds(rest, n - 1);
      assert clusters == rest[n := clusters[n]];
    }
  }

  /** The reported cluster count is the number of clusters created so far. */
  lemma ClusterCountIsCreations(cfg: Config, msgs: seq<Tokens>)
    requires Tokenized(msgs) && msgs != []
    ensures var o := Run(cfg, msgs);
      o.results[|msgs| - 1].clusterCount == |o.state.clusters| == CountChanges(o.results, Created)
  {
    Conservation(cfg, msgs);
    var o := Run(cfg, msgs);
    CardinalityOfIds(o.state.clusters, o.state.clusterID);
  }

  /** Comparing joined texts of words compares the templates. */
  lemma JoinedChange(t: Tokens, tokens: Tokens)
    requires AllWords(t) && |t| == |tokens|
    ensures Join(t, " ") != Join(Generalize(t, tokens), " ") <==> !Covers(t, tokens)
  {
    var t' := Generalize(t, tokens);
    GeneralizeCovers(t, tokens);
    assert IsWord(WILDCARD);
    assert AllWords(t');
    if Join(t, " ") == Join(t', " ") {
      JoinInjective(t, t');
    }
  }

  /** The reported change is a template change exactly when the template did not cover the message. */
  lemma ChangeTypeIsExact(cfg: Config, s: State, h: History, tokens: Tokens)
    requires Inv(cfg, s, h) && WellFormed(s) && tokens != [] && AllWords(tokens)
    ensures var (s', r) := Add(cfg, s, tokens);
      && (r.changeType == Created <==> Search(cfg, s, tokens).None?)
      && (r.changeType == TemplateChanged
         <==> r.clusterID in s.clusters && !Covers(s.clusters[r.clusterID].template, tokens))
  {
    if Search(cfg, s, tokens).Some? {
      var id := Search(cfg, s, tokens).value;
      SearchFinds(cfg, s, tokens);
      LggWords(h[id]);
      JoinedChange(s.clusters[id].template, tokens);
    }
  }

  lemma LggWords(ms: seq<Tokens>)
    requires Aligned(ms)
    ensures AllWords(Lgg(ms))
  {
  }
}
