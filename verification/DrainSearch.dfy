/** What a search in the prefix tree finds, said by the way it takes and by counting, and what Add makes of it. */
module DrainSearch {
  import opened Text
  import opened Tokenizer
  import opened DrainModel
  import opened DrainInvariants
  import opened DrainStability
  import opened DrainRuns

  // Similarity

  /** The positions at which a template agrees with a message. */
  ghost function AgreeingPositions(template: Tokens, tokens: Tokens): set<nat>
    requires |template| == |tokens|
  {
    set i: nat | i < |tokens| && (template[i] == tokens[i] || template[i] == "<*>")
  }

  lemma {:induction false} MatchCountIsCardinality(template: Tokens, tokens: Tokens, n: nat)
    requires n <= |template| == |tokens|
    ensures MatchCount(template, tokens, n) == |set i | i in AgreeingPositions(template, tokens) && i < n|
  {
    var agreeing := AgreeingPositions(template, tokens);
    var upTo := set i | i in agreeing && i < n;
    if n == 0 {
      assert upTo == {};
    } else {
      MatchCountIsCardinality(template, tokens, n - 1);
      var before := set i | i in agreeing && i < n - 1;
      assert upTo == if Agrees(template, tokens, n - 1) then before + {n - 1} else before;
    }
  }

  lemma MatchCountOfAll(template: Tokens, tokens: Tokens)
    requires |template| == |tokens|
    ensures MatchCount(template, tokens, |tokens|) == |AgreeingPositions(template, tokens)|
  {
    MatchCountIsCardinality(template, tokens, |tokens|);
    var agreeing := AgreeingPositions(template, tokens);
    assert agreeing == set i | i in agreeing && i < |tokens|;
  }

  lemma RatioTimes(k: real, n: real)
    requires n > 0.0
    ensures k / n * n == k
  {
  }

  /** Similarity is the number of agreeing positions over the number of positions. */
  lemma SimilarityIsRatio(template: Tokens, tokens: Tokens)
    requires tokens != []
    ensures |template| != |tokens| ==> Similarity(template, tokens) == 0.0
    ensures |template| == |tokens| ==>
      Similarity(template, tokens) * |tokens| as real == |AgreeingPositions(template, tokens)| as real
  {
    hide MatchCount, AgreeingPositions;
    if |template| == |tokens| {
      MatchCountOfAll(template, tokens);
      RatioTimes(MatchCount(template, tokens, |tokens|) as real, |tokens| as real);
    }
  }

  /** How many positions agree; none when the lengths differ. */
  ghost function Agreement(template: Tokens, tokens: Tokens): nat {
    if |template| == |tokens| then |AgreeingPositions(template, tokens)| else 0
  }

  /** Enough positions agree, and at least one does. */
  ghost predicate IsSimilar(th: real, template: Tokens, tokens: Tokens) {
    Agreement(template, tokens) > 0 && Agreement(template, tokens) as real >= th * |tokens| as real
  }

  lemma Scaled(x: real, y: real, n: real)
    requires n > 0.0
    ensures x < y <==> x * n < y * n
  {
    if x < y {
      assert (y - x) * n > 0.0;
    } else {
      assert (x - y) * n >= 0.0;
    }
  }

  lemma SimilarityInNumbers(template: Tokens, tokens: Tokens)
    requires tokens != []
    ensures Similarity(template, tokens) * |tokens| as real == Agreement(template, tokens) as real
  {
    SimilarityIsRatio(template, tokens);
  }

  lemma SimilarIff(th: real, template: Tokens, tokens: Tokens)
    requires tokens != []
    ensures IsSimilar(th, template, tokens)
      <==> Similarity(template, tokens) >= th && Similarity(template, tokens) > 0.0
  {
    hide Similarity, Agreement;
    var n := |tokens| as real;
    SimilarityInNumbers(template, tokens);
    Scaled(Similarity(template, tokens), th, n);
    Scaled(0.0, Similarity(template, tokens), n);
  }

  lemma MoreSimilarIff(a: Tokens, b: Tokens, tokens: Tokens)
    requires tokens != []
    ensures Agreement(a, tokens) < Agreement(b, tokens) <==> Similarity(a, tokens) < Similarity(b, tokens)
  {
    hide Similarity, Agreement;
    SimilarityInNumbers(a, tokens);
    SimilarityInNumbers(b, tokens);
    Scaled(Similarity(a, tokens), Similarity(b, tokens), |tokens| as real);
  }

  // The way of a search

  /**
   * The nodes that a search visits, from the length node down: from each to the child for the token when there is
   * one, and to the wildcard child when there is none.
   */
  ghost predicate IsWay(tree: Tree, tokens: Tokens, way: seq<Path>) {
    && 1 <= |way| <= |tokens| + 1
    && way[0] == At(Root, Itoa(|tokens|))
    && (forall j :: 0 <= j < |way| ==> way[j] in tree)
    && forall j :: 0 <= j < |way| - 1 ==>
         way[j + 1] == At(way[j], if At(way[j], tokens[j]) in tree then tokens[j] else "<*>")
  }

  /** So many levels below the length node, all levels or all tokens are used up, and not before. */
  predicate IsLeafLevel(cfg: Config, n: nat, k: nat) {
    k <= n && (k == n || k + 1 >= cfg.maxNodeDepth) && (k > 0 ==> k < cfg.maxNodeDepth)
  }

  ghost predicate IsWayToLeaf(cfg: Config, tree: Tree, tokens: Tokens, way: seq<Path>) {
    IsWay(tree, tokens, way) && IsLeafLevel(cfg, |tokens|, |way| - 1)
  }

  /** The way ends where there is no further node, although levels and tokens are left. */
  ghost predicate IsDeadEnd(cfg: Config, tree: Tree, tokens: Tokens, way: seq<Path>) {
    && IsWay(tree, tokens, way) && |way| <= |tokens| && |way| < cfg.maxNodeDepth
    && At(way[|way| - 1], tokens[|way| - 1]) !in tree && At(way[|way| - 1], "<*>") !in tree
  }

  lemma LeafLevelIsUnique(cfg: Config, n: nat, k: nat)
    ensures IsLeafLevel(cfg, n, k) <==> k == Levels(cfg, n)
  {
  }

  /** The node at the end of every way is where the search from its nodes leads. */
  lemma {:induction false} WayIsDescent(tree: Tree, tokens: Tokens, way: seq<Path>, i: nat)
    requires IsWay(tree, tokens, way) && i < |way|
    ensures Descend(tree, way[i], tokens, i, |way| - 1) == Some(way[|way| - 1])
    decreases |way| - i
  {
    if i < |way| - 1 {
      WayIsDescent(tree, tokens, way, i + 1);
    }
  }

  lemma {:induction false} DeadEndStopsDescent(tree: Tree, tokens: Tokens, way: seq<Path>, i: nat, k: nat)
    requires IsWay(tree, tokens, way) && i < |way| <= k <= |tokens|
    requires At(way[|way| - 1], tokens[|way| - 1]) !in tree && At(way[|way| - 1], "<*>") !in tree
    ensures Descend(tree, way[i], tokens, i, k).None?
    decreases |way| - i
  {
    if i < |way| - 1 {
      DeadEndStopsDescent(tree, tokens, way, i + 1, k);
    }
  }

  /** A way goes on as long as there is a child to go to. */
  lemma {:induction false} WayGoesOn(tree: Tree, tokens: Tokens, way: seq<Path>, k: nat) returns (longer: seq<Path>)
    requires IsWay(tree, tokens, way) && |way| - 1 <= k <= |tokens|
    ensures IsWay(tree, tokens, longer) && |longer| - 1 <= k
    ensures |longer| - 1 < k ==>
      At(longer[|longer| - 1], tokens[|longer| - 1]) !in tree && At(longer[|longer| - 1], "<*>") !in tree
    decreases k - |way|
  {
    var last := way[|way| - 1];
    if |way| - 1 == k {
      longer := way;
    } else {
      var key := if At(last, tokens[|way| - 1]) in tree then tokens[|way| - 1] else "<*>";
      if At(last, key) in tree {
        longer := WayGoesOn(tree, tokens, way + [At(last, key)], k);
      } else {
        longer := way;
      }
    }
  }

  /** A search leads to a leaf iff a way does, to the end of that way; it fails iff a way has a dead end. */
  lemma SearchTakesTheWay(cfg: Config, s: State, tokens: Tokens, leaf: Path)
    requires tokens != []
    ensures SearchLeaf(cfg, s, tokens) == Some(leaf)
      <==> exists way :: IsWayToLeaf(cfg, s.tree, tokens, way) && way[|way| - 1] == leaf
    ensures SearchLeaf(cfg, s, tokens).None?
      <==> At(Root, Itoa(|tokens|)) !in s.tree || exists way :: IsDeadEnd(cfg, s.tree, tokens, way)
  {
    var top, k := At(Root, Itoa(|tokens|)), Levels(cfg, |tokens|);
    hide Descend, Levels;
    LeafLevelIsUnique(cfg, |tokens|, k);
    forall way | IsWayToLeaf(cfg, s.tree, tokens, way) ensures SearchLeaf(cfg, s, tokens) == Some(way[|way| - 1]) {
      LeafLevelIsUnique(cfg, |tokens|, |way| - 1);
      WayIsDescent(s.tree, tokens, way, 0);
    }
    forall way | IsDeadEnd(cfg, s.tree, tokens, way) ensures SearchLeaf(cfg, s, tokens).None? {
      DeadEndIsShort(cfg, s.tree, tokens, way);
      DeadEndStopsDescent(s.tree, tokens, way, 0, k);
    }
    if top in s.tree {
      var way := WayGoesOn(s.tree, tokens, [top], k);
      LeafLevelIsUnique(cfg, |tokens|, |way| - 1);
      assert IsWayToLeaf(cfg, s.tree, tokens, way) || IsDeadEnd(cfg, s.tree, tokens, way);
    }
  }

  lemma DeadEndIsShort(cfg: Config, tree: Tree, tokens: Tokens, way: seq<Path>)
    requires IsDeadEnd(cfg, tree, tokens, way)
    ensures |way| <= Levels(cfg, |tokens|)
  {
  }

  // What the search decides

  /** The search of a message ends at the leaf. */
  ghost predicate LeadsTo(cfg: Config, tree: Tree, tokens: Tokens, leaf: Path) {
    exists way :: IsWayToLeaf(cfg, tree, tokens, way) && way[|way| - 1] == leaf
  }

  /** The i-th cluster listed at the leaf is similar enough to the message. */
  ghost predicate IsCandidate(cfg: Config, s: State, tokens: Tokens, leaf: Path, i: nat) {
    && leaf in s.tree && i < |s.tree[leaf]| && s.tree[leaf][i] in s.clusters
    && IsSimilar(cfg.simThreshold, s.clusters[s.tree[leaf][i]].template, tokens)
  }

  function TemplateAt(s: State, leaf: Path, i: nat): Tokens
    requires leaf in s.tree && i < |s.tree[leaf]| && s.tree[leaf][i] in s.clusters
  {
    s.clusters[s.tree[leaf][i]].template
  }

  /** The first of the candidates that agree in most positions. */
  ghost predicate IsFirstBest(cfg: Config, s: State, tokens: Tokens, leaf: Path, k: nat) {
    && IsCandidate(cfg, s, tokens, leaf, k)
    && forall i: nat :: IsCandidate(cfg, s, tokens, leaf, i) ==>
         var a, b := Agreement(TemplateAt(s, leaf, i), tokens), Agreement(TemplateAt(s, leaf, k), tokens);
         a <= b && (i < k ==> a < b)
  }

  lemma CandidateIff(cfg: Config, s: State, tokens: Tokens, leaf: Path, i: nat)
    requires WellFormed(s) && tokens != [] && leaf in s.tree && i < |s.tree[leaf]|
    ensures s.tree[leaf][i] in s.clusters
    ensures IsCandidate(cfg, s, tokens, leaf, i) <==>
      var x := Similarity(s.clusters[s.tree[leaf][i]].template, tokens); x >= cfg.simThreshold && x > 0.0
  {
    assert Known(s.clusters, s.tree[leaf]);
    SimilarIff(cfg.simThreshold, s.clusters[s.tree[leaf][i]].template, tokens);
  }

  lemma BestIsFirstBest(cfg: Config, s: State, tokens: Tokens, leaf: Path)
    requires WellFormed(s) && tokens != [] && leaf in s.tree
    ensures var best := Best(cfg.simThreshold, s.clusters, s.tree[leaf], tokens);
      && (best.None? <==> forall i: nat :: !IsCandidate(cfg, s, tokens, leaf, i))
      && (best.Some? ==> exists k: nat :: IsFirstBest(cfg, s, tokens, leaf, k) && s.tree[leaf][k] == best.value)
  {
    var ids := s.tree[leaf];
    var best := Best(cfg.simThreshold, s.clusters, ids, tokens);
    hide Similarity, IsSimilar, Best, Agreement;
    BestIsFirstMaximum(cfg.simThreshold, s.clusters, ids, tokens);
    forall i: nat | i < |ids|
      ensures ids[i] in s.clusters
      ensures IsCandidate(cfg, s, tokens, leaf, i) <==>
        var x := Similarity(s.clusters[ids[i]].template, tokens); x >= cfg.simThreshold && x > 0.0
    {
      CandidateIff(cfg, s, tokens, leaf, i);
    }
    if best.Some? {
      var x := BestSimilarity(s.clusters, best, tokens);
      var k :| 0 <= k < |ids| && ids[k] == best.value
        && forall i :: 0 <= i < k ==> Similarity(s.clusters[ids[i]].template, tokens) < x;
      forall i: nat | IsCandidate(cfg, s, tokens, leaf, i)
        ensures var a, b := Agreement(TemplateAt(s, leaf, i), tokens), Agreement(TemplateAt(s, leaf, k), tokens);
          a <= b && (i < k ==> a < b)
      {
        MoreSimilarIff(TemplateAt(s, leaf, i), TemplateAt(s, leaf, k), tokens);
        MoreSimilarIff(TemplateAt(s, leaf, k), TemplateAt(s, leaf, i), tokens);
      }
      assert IsFirstBest(cfg, s, tokens, leaf, k);
    }
  }

  /** The search finds the first best cluster of the leaf that the way leads to, and nothing iff there is none. */
  lemma SearchDecides(cfg: Config, s: State, tokens: Tokens)
    requires WellFormed(s) && tokens != []
    ensures Search(cfg, s, tokens).None? <==>
      forall leaf, i: nat :: LeadsTo(cfg, s.tree, tokens, leaf) ==> !IsCandidate(cfg, s, tokens, leaf, i)
    ensures Search(cfg, s, tokens).Some? ==>
      exists leaf, k: nat :: LeadsTo(cfg, s.tree, tokens, leaf) && IsFirstBest(cfg, s, tokens, leaf, k)
        && s.tree[leaf][k] == Search(cfg, s, tokens).value
  {
    hide IsCandidate, IsFirstBest, IsWayToLeaf, IsDeadEnd, Best, SearchLeaf;
    forall leaf ensures LeadsTo(cfg, s.tree, tokens, leaf) <==> SearchLeaf(cfg, s, tokens) == Some(leaf) {
      SearchTakesTheWay(cfg, s, tokens, leaf);
    }
    if SearchLeaf(cfg, s, tokens).Some? {
      LeafIsInTree(cfg, s, tokens);
      BestIsFirstBest(cfg, s, tokens, SearchLeaf(cfg, s, tokens).value);
    }
  }

  lemma LeafIsInTree(cfg: Config, s: State, tokens: Tokens)
    requires tokens != [] && SearchLeaf(cfg, s, tokens).Some?
    ensures SearchLeaf(cfg, s, tokens).value in s.tree
  {
  }

  /** Adding a message creates a cluster iff no listed one is similar enough; otherwise it joins the first best. */
  lemma AddDecides(cfg: Config, s: State, tokens: Tokens)
    requires WellFormed(s) && tokens != []
    ensures var r := Add(cfg, s, tokens).1;
      && r.changeType != Nothing
      && (r.changeType == Created <==>
            forall leaf, i: nat :: LeadsTo(cfg, s.tree, tokens, leaf) ==> !IsCandidate(cfg, s, tokens, leaf, i))
      && (r.changeType != Created ==>
            exists leaf, k: nat :: LeadsTo(cfg, s.tree, tokens, leaf) && IsFirstBest(cfg, s, tokens, leaf, k)
              && s.tree[leaf][k] == r.clusterID)
  {
    hide LeadsTo, IsCandidate, IsFirstBest, Search;
    SearchDecides(cfg, s, tokens);
  }

  /** The result describes the cluster as it is afterwards. */
  lemma ResultDescribesCluster(cfg: Config, s: State, tokens: Tokens)
    requires WellFormed(s) && tokens != []
    ensures var (s', r) := Add(cfg, s, tokens);
      && r.clusterID in s'.clusters && r.clusterCount == |s'.clusters|
      && r.clusterSize == s'.clusters[r.clusterID].size
      && r.templateMined == Join(s'.clusters[r.clusterID].template, " ")
      && r.clusterSize == if r.changeType == Created then 1 else s.clusters[r.clusterID].size + 1
  {
    hide Search, Grow, Reindex, Generalize;
  }

  // Generalised clusters are found

  /** The nodes below the length node that only wildcards lead to. */
  ghost function WildWay(n: nat, k: nat): (way: seq<Path>)
    ensures |way| == k + 1
  {
    if k == 0 then [At(Root, Itoa(n))] else WildWay(n, k - 1) + [At(WildWay(n, k - 1)[k - 1], "<*>")]
  }

  lemma {:induction false} WildWayAt(n: nat, k: nat, j: nat)
    requires j <= k
    ensures WildWay(n, k)[j] == Wilds(n, j)
  {
    if j < k {
      WildWayAt(n, k - 1, j);
    } else if k > 0 {
      WildWayAt(n, k - 1, k - 1);
    }
  }

  /** No node of the message's own token lies beside the wildcards on the way down. */
  ghost predicate NothingBesideWildcards(cfg: Config, tree: Tree, tokens: Tokens) {
    forall j :: 0 <= j < Levels(cfg, |tokens|) ==>
      tokens[j] == "<*>" || At(Wilds(|tokens|, j), tokens[j]) !in tree
  }

  lemma {:induction false} WildsInTree(tree: Tree, n: nat, j: nat, k: nat)
    requires j <= k && Closed(tree) && Wilds(n, k) in tree
    ensures Wilds(n, j) in tree
    decreases k
  {
    if j < k {
      assert Wilds(n, k) == At(Wilds(n, k - 1), WILDCARD);
      WildsInTree(tree, n, j, k - 1);
    }
  }

  lemma WildcardsLeadDown(cfg: Config, tree: Tree, tokens: Tokens)
    requires Closed(tree) && tokens != [] && WildLeaf(cfg, |tokens|) in tree
    requires NothingBesideWildcards(cfg, tree, tokens)
    ensures LeadsTo(cfg, tree, tokens, WildLeaf(cfg, |tokens|))
  {
    var n, k := |tokens|, Levels(cfg, |tokens|);
    var way := WildWay(n, k);
    forall j | 0 <= j <= k ensures way[j] == Wilds(n, j) && way[j] in tree {
      WildWayAt(n, k, j);
      WildsInTree(tree, n, j, k);
    }
    LeafLevelIsUnique(cfg, n, k);
    assert IsWayToLeaf(cfg, tree, tokens, way);
  }

  /** A message that finds no literal beside the wildcards joins a cluster when one at their end is similar enough. */
  lemma GeneralizedIsFound(cfg: Config, s: State, tokens: Tokens, i: nat)
    requires WellFormed(s) && Closed(s.tree) && tokens != [] && NothingBesideWildcards(cfg, s.tree, tokens)
    requires IsCandidate(cfg, s, tokens, WildLeaf(cfg, |tokens|), i)
    ensures Add(cfg, s, tokens).1.changeType in {TemplateChanged, SizeChanged}
  {
    hide Add, LeadsTo, NothingBesideWildcards;
    WildcardsLeadDown(cfg, s.tree, tokens);
    AddDecides(cfg, s, tokens);
  }

  /** So it does in every run, for any cluster whose template is no longer its first message. */
  lemma GeneralizedIsFoundInRuns(cfg: Config, msgs: seq<Tokens>, id: nat, tokens: Tokens)
    requires Tokenized(msgs) && (cfg.maxChildren <= 0 || forall i :: 0 <= i < |msgs| ==> HasLiteral(cfg, msgs[i]))
    requires var o := Run(cfg, msgs);
      && id in o.state.clusters && Assigned(msgs, o.results, id) != []
      && o.state.clusters[id].template != Assigned(msgs, o.results, id)[0]
      && IsSimilar(cfg.simThreshold, o.state.clusters[id].template, tokens)
      && NothingBesideWildcards(cfg, o.state.tree, tokens)
    requires tokens != [] && cfg.maxNodeDepth >= 2
    ensures Add(cfg, Run(cfg, msgs).state, tokens).1.changeType in {TemplateChanged, SizeChanged}
  {
    hide Add, Run, NothingBesideWildcards, AgreeingPositions;
    var s := Run(cfg, msgs).state;
    GeneralizedStaysAttached(cfg, msgs, id);
    var leaf := WildLeaf(cfg, |tokens|);
    var i :| 0 <= i < |s.tree[leaf]| && s.tree[leaf][i] == id;
    GeneralizedIsFound(cfg, s, tokens, i);
  }

  // Where clusters are listed

  /** Clusters are listed at leaf level only, below the node of their length. */
  lemma ListedAtLeafLevel(cfg: Config, msgs: seq<Tokens>, p: Path, id: nat)
    requires Tokenized(msgs)
    requires var s := Run(cfg, msgs).state; p in s.tree && id in s.tree[p]
    ensures var s := Run(cfg, msgs).state;
      && id in s.clusters
      && var n := |s.clusters[id].template|;
         && Depth(p) >= 1 && IsLeafLevel(cfg, n, Depth(p) - 1)
         && Up(p, Depth(p) - 1) == At(Root, Itoa(n))
  {
    hide Run;
    var o := Run(cfg, msgs);
    TreeShape(cfg, msgs, p, id);
    var mine := Assigned(msgs, o.results, id);
    var n := |mine[0]|;
    var k := Levels(cfg, n);
    DepthOfWay(n, mine[0], k);
    DepthOfWilds(n, k);
    UpWay(n, mine[0], k, k);
    UpWilds(n, k, k);
    LeafLevelIsUnique(cfg, n, k);
  }
}
