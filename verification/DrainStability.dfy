/** After a message is added, the same message is found again in the same cluster. */
module DrainStability {
  import opened Text
  import opened Tokenizer
  import opened DrainModel
  import opened DrainInvariants

  lemma GeneralizeCovers(template: Tokens, tokens: Tokens)
    requires |template| == |tokens|
    ensures Covers(Generalize(template, tokens), tokens)
    ensures Generalize(template, tokens) == template <==> Covers(template, tokens)
  {
    var t := Generalize(template, tokens);
    forall i | 0 <= i < |t| ensures Agrees(t, tokens, i) && (t[i] == template[i] <==> Agrees(template, tokens, i)) {
    }
    if Covers(template, tokens) {
      assert t == template;
    } else {
      var i :| 0 <= i < |template| && !Agrees(template, tokens, i);
      assert t[i] != template[i];
    }
  }

  /** Once a template covers a message it covers it after every further generalisation. */
  lemma GeneralizeKeepsCover(template: Tokens, tokens: Tokens, m: Tokens)
    requires |template| == |tokens| && Covers(template, m)
    ensures Covers(Generalize(template, tokens), m)
  {
    var t := Generalize(template, tokens);
    forall i | 0 <= i < |t| ensures Agrees(t, m, i) {
      assert Agrees(template, m, i);
    }
  }

  // Where the search goes

  /** When the literal path exists the search follows it. */
  lemma {:induction false} DescendExact(tree: Tree, tokens: Tokens, i: nat, k: nat)
    requires i <= k <= |tokens| && WayTo(|tokens|, tokens, i) in tree
    requires forall j :: i <= j <= k ==> WayTo(|tokens|, tokens, j) in tree
    ensures Descend(tree, WayTo(|tokens|, tokens, i), tokens, i, k) == Some(WayTo(|tokens|, tokens, k))
    decreases k - i
  {
    if i < k {
      DescendExact(tree, tokens, i + 1, k);
    }
  }

  lemma {:induction false} WayInTree(tree: Tree, tokens: Tokens, j: nat, k: nat)
    requires j <= k <= |tokens| && Closed(tree) && WayTo(|tokens|, tokens, k) in tree
    ensures WayTo(|tokens|, tokens, j) in tree
    decreases k
  {
    if j < k {
      assert WayTo(|tokens|, tokens, k) == At(WayTo(|tokens|, tokens, k - 1), tokens[k - 1]);
      WayInTree(tree, tokens, j, k - 1);
    }
  }

  lemma SearchLeafExact(cfg: Config, s: State, tokens: Tokens)
    requires Closed(s.tree) && tokens != [] && LeafPath(cfg, tokens) in s.tree
    ensures SearchLeaf(cfg, s, tokens) == Some(LeafPath(cfg, tokens))
  {
    var k := Levels(cfg, |tokens|);
    forall j | 0 <= j <= k ensures WayTo(|tokens|, tokens, j) in s.tree {
      WayInTree(s.tree, tokens, j, k);
    }
    DescendExact(s.tree, tokens, 0, k);
  }

  /** The node m levels above. */
  function Up(q: Path, m: nat): Path {
    if m == 0 || q.Root? then q else Up(q.parent, m - 1)
  }

  lemma {:induction false} UpWay(n: nat, keys: seq<string>, k: nat, m: nat)
    requires m <= k <= |keys|
    ensures Up(WayTo(n, keys, k), m) == WayTo(n, keys, k - m)
  {
    if m > 0 {
      UpWay(n, keys, k - 1, m - 1);
    }
  }

  lemma {:induction false} UpWilds(n: nat, k: nat, m: nat)
    requires m <= k
    ensures Up(Wilds(n, k), m) == Wilds(n, k - m)
  {
    if m > 0 {
      UpWilds(n, k - 1, m - 1);
    }
  }

  lemma {:induction false} UpStep(q: Path, m: nat, p: Path, key: string)
    requires Up(q, m) == At(p, key)
    ensures Up(q, m + 1) == p
  {
    if m > 0 {
      UpStep(q.parent, m - 1, p, key);
    }
  }

  lemma {:induction false} DescendStartsAt(tree: Tree, path: Path, tokens: Tokens, i: nat, k: nat)
    requires path in tree && i <= k <= |tokens| && Descend(tree, path, tokens, i, k).Some?
    ensures Up(Descend(tree, path, tokens, i, k).value, k - i) == path
    decreases k - i
  {
    if i < k {
      var key := if At(path, tokens[i]) in tree then tokens[i] else WILDCARD;
      DescendStartsAt(tree, At(path, key), tokens, i + 1, k);
      UpStep(Descend(tree, path, tokens, i, k).value, k - i - 1, path, key);
    }
  }

  /** The step of a search at level j: to the literal child, or to the wildcard when that is missing. */
  lemma {:induction false} DescendStep(tree: Tree, path: Path, tokens: Tokens, i: nat, k: nat, j: nat)
    requires path in tree && i <= j < k <= |tokens| && Descend(tree, path, tokens, i, k).Some?
    ensures var q := Descend(tree, path, tokens, i, k).value;
      var at, next := Up(q, k - j), Up(q, k - j - 1);
      && next in tree
      && next == At(at, if At(at, tokens[j]) in tree then tokens[j] else WILDCARD)
    decreases k - i
  {
    var key := if At(path, tokens[i]) in tree then tokens[i] else WILDCARD;
    if i == j {
      DescendStartsAt(tree, path, tokens, i, k);
      DescendStartsAt(tree, At(path, key), tokens, i + 1, k);
    } else {
      DescendStep(tree, At(path, key), tokens, i + 1, k, j);
    }
  }

  /** New nodes divert a search only where they offer a literal child that was missing. */
  lemma {:induction false} DescendStable(tree: Tree, after: Tree, path: Path, tokens: Tokens, i: nat, k: nat)
    requires path in tree && path in after && i <= k <= |tokens| && Descend(tree, path, tokens, i, k).Some?
    requires forall p :: p in tree ==> p in after
    requires var q := Descend(tree, path, tokens, i, k).value;
      forall j :: i <= j < k && At(Up(q, k - j), tokens[j]) in after ==> At(Up(q, k - j), tokens[j]) in tree
    ensures Descend(after, path, tokens, i, k) == Descend(tree, path, tokens, i, k)
    decreases k - i
  {
    if i < k {
      DescendStartsAt(tree, path, tokens, i, k);
      assert At(path, tokens[i]) in after ==> At(path, tokens[i]) in tree;
      var key := if At(path, tokens[i]) in tree then tokens[i] else WILDCARD;
      DescendStable(tree, after, At(path, key), tokens, i + 1, k);
    }
  }

  // What the leaf's loop keeps

  lemma BestUnique(th: real, clusters: Clusters, ids: seq<nat>, tokens: Tokens, id: nat)
    requires |tokens| > 0 && Known(clusters, ids) && id in ids && th <= 1.0
    requires Covers(clusters[id].template, tokens)
    requires forall c :: c in ids && c != id ==> Similarity(clusters[c].template, tokens) < 1.0
    ensures Best(th, clusters, ids, tokens) == Some(id)
  {
    BestIsFirstMaximum(th, clusters, ids, tokens);
    SimilarityRange(clusters[id].template, tokens);
    var i :| 0 <= i < |ids| && ids[i] == id;
    var best := Best(th, clusters, ids, tokens);
    assert best.Some?;
    SimilarityRange(clusters[best.value].template, tokens);
  }

  /** The scan looks at templates only. */
  lemma {:induction false} BestSameTemplates(th: real, before: Clusters, after: Clusters, ids: seq<nat>, tokens: Tokens)
    requires |tokens| > 0 && Known(before, ids) && Known(after, ids)
    requires forall c :: c in before && c in after ==> before[c].template == after[c].template
    ensures Best(th, before, ids, tokens) == Best(th, after, ids, tokens)
  {
    if ids != [] {
      BestSameTemplates(th, before, after, ids[..|ids| - 1], tokens);
    }
  }

  // The three cases

  lemma StableAfterCreate(cfg: Config, s: State, h: History, s': State, tokens: Tokens)
    requires Inv(cfg, s, h) && WellFormed(s) && tokens != [] && AllWords(tokens) && cfg.simThreshold <= 1.0
    requires Search(cfg, s, tokens).None? && CreateStep(cfg, s, s', tokens) && WellFormed(s')
    ensures Search(cfg, s', tokens) == Some(s'.clusterID)
  {
    var leaf, id := LeafPath(cfg, tokens), s'.clusterID;
    SearchLeafExact(cfg, s', tokens);
    assert id in s'.tree[leaf] by {
      var all := ListOf(s.tree, leaf) + [id];
      assert Evict(cfg, all)[|Evict(cfg, all)| - 1] == id;
    }
    forall c | c in s'.tree[leaf] && c != id ensures Similarity(s'.clusters[c].template, tokens) < 1.0 {
      assert c in s.tree[leaf];
      SearchLeafExact(cfg, s, tokens);
      BestIsFirstMaximum(cfg.simThreshold, s.clusters, s.tree[leaf], tokens);
    }
    BestUnique(cfg.simThreshold, s'.clusters, s'.tree[leaf], tokens, id);
  }

  lemma {:induction false} DepthOfUp(q: Path, m: nat)
    requires m <= Depth(q)
    ensures Depth(Up(q, m)) == Depth(q) - m
  {
    if m > 0 {
      DepthOfUp(q.parent, m - 1);
    }
  }

  lemma {:induction false} DepthOfDescent(tree: Tree, path: Path, tokens: Tokens, i: nat, k: nat)
    requires path in tree && i <= k <= |tokens| && Descend(tree, path, tokens, i, k).Some?
    ensures Depth(Descend(tree, path, tokens, i, k).value) == Depth(path) + k - i
    decreases k - i
  {
    if i < k {
      DepthOfDescent(tree, At(path, if At(path, tokens[i]) in tree then tokens[i] else WILDCARD), tokens, i + 1, k);
    }
  }

  /** A node that re-indexing adds belongs to the step of its own level. */
  lemma ReindexedNode(cfg: Config, tree: Tree, template: Tokens, id: nat, p: Path, j: nat)
    requires template != [] && p in Reindex(cfg, tree, template, id) && p !in tree && Depth(p) == j + 2
    ensures j < |template| && WildNode(template, p, j)
  {
    var k := Levels(cfg, |template|);
    DepthOfWilds(|template|, k);
    EnsureWildNodes(tree, template, k);
    assert k > 0 ==> WildNode(template, WildLeaf(cfg, |template|), k - 1);
    DepthOfWilds(|template|, 0);
    var i :| 0 <= i < k && WildNode(template, p, i);
    DepthOfWilds(|template|, i);
  }

  /** A node of re-indexing that lies beside the way of the search was there before. */
  lemma WildNodeWasThere(cfg: Config, s: State, h: History, tokens: Tokens, id: nat, q: Path, j: nat)
    requires Faithful(s, h) && id in s.clusters && |s.clusters[id].template| == |tokens|
    requires ListedAt(cfg, s, h, q, id) && j < Levels(cfg, |tokens|)
    requires var k := Levels(cfg, |tokens|);
      var at := Up(q, k - j);
      && Up(q, k - j - 1) in s.tree
      && Up(q, k - j - 1) == At(at, if At(at, tokens[j]) in s.tree then tokens[j] else WILDCARD)
      && WildNode(Generalize(s.clusters[id].template, tokens), At(at, tokens[j]), j)
    ensures At(Up(q, Levels(cfg, |tokens|) - j), tokens[j]) in s.tree
  {
    var k, n, t := Levels(cfg, |tokens|), |tokens|, s.clusters[id].template;
    LggCovers(h[id], 0);
    assert Agrees(t, h[id][0], j);
    if q == LeafPath(cfg, h[id][0]) {
      UpWay(n, h[id][0], k, k - j - 1);
    } else {
      UpWilds(n, k, k - j);
      assert t[j] != WILDCARD ==> At(Wilds(n, j), t[j]) in s.tree;
    }
  }

  lemma NotDivertedAt(cfg: Config, s: State, h: History, tokens: Tokens, id: nat, after: Tree, q: Path, j: nat)
    requires Faithful(s, h) && tokens != [] && id in s.clusters && |s.clusters[id].template| == |tokens|
    requires ListedAt(cfg, s, h, q, id) && SearchLeaf(cfg, s, tokens) == Some(q) && j < Levels(cfg, |tokens|)
    requires after == Reindex(cfg, s.tree, Generalize(s.clusters[id].template, tokens), id)
    requires At(Up(q, Levels(cfg, |tokens|) - j), tokens[j]) in after
    ensures At(Up(q, Levels(cfg, |tokens|) - j), tokens[j]) in s.tree
  {
    var k, top := Levels(cfg, |tokens|), At(Root, Itoa(|tokens|));
    var p := At(Up(q, k - j), tokens[j]);
    DescendStep(s.tree, top, tokens, 0, k, j);
    DepthOfDescent(s.tree, top, tokens, 0, k);
    assert Depth(top) == 1;
    DepthOfUp(q, k - j);
    if p !in s.tree {
      ReindexedNode(cfg, s.tree, Generalize(s.clusters[id].template, tokens), id, p, j);
      WildNodeWasThere(cfg, s, h, tokens, id, q, j);
    }
  }

  lemma NotDiverted(cfg: Config, s: State, h: History, tokens: Tokens, id: nat, after: Tree, q: Path)
    requires Faithful(s, h) && tokens != [] && id in s.clusters && |s.clusters[id].template| == |tokens|
    requires ListedAt(cfg, s, h, q, id) && SearchLeaf(cfg, s, tokens) == Some(q)
    requires after == Reindex(cfg, s.tree, Generalize(s.clusters[id].template, tokens), id)
    ensures var k := Levels(cfg, |tokens|);
      forall j :: 0 <= j < k && At(Up(q, k - j), tokens[j]) in after ==> At(Up(q, k - j), tokens[j]) in s.tree
  {
    hide Reindex, Generalize, SearchLeaf, ListedAt, Faithful;
    var k := Levels(cfg, |tokens|);
    forall j | 0 <= j < k && At(Up(q, k - j), tokens[j]) in after ensures At(Up(q, k - j), tokens[j]) in s.tree {
      NotDivertedAt(cfg, s, h, tokens, id, after, q, j);
    }
  }

  /** Re-indexing the cluster that a search found does not divert the search. */
  lemma ReindexDoesNotDivert(cfg: Config, s: State, h: History, tokens: Tokens, id: nat, after: Tree)
    requires Inv(cfg, s, h) && WellFormed(s) && tokens != [] && Search(cfg, s, tokens) == Some(id)
    requires |s.clusters[id].template| == |tokens|
    requires after == Reindex(cfg, s.tree, Generalize(s.clusters[id].template, tokens), id)
    requires forall p :: p in s.tree ==> p in after
    ensures SearchLeaf(cfg, s.(tree := after), tokens) == SearchLeaf(cfg, s, tokens)
  {
    var k, top := Levels(cfg, |tokens|), At(Root, Itoa(|tokens|));
    var q := SearchLeaf(cfg, s, tokens).value;
    assert ListedAt(cfg, s, h, q, id);
    NotDiverted(cfg, s, h, tokens, id, after, q);
    hide ListedAt, Listings, Attached, Reindex, Best;
    DescendStable(s.tree, after, top, tokens, 0, k);
  }

  /** A message that its cluster covered already is found in the same cluster again. */
  lemma StableAfterCovered(cfg: Config, s: State, s': State, tokens: Tokens, id: nat)
    requires WellFormed(s) && WellFormed(s') && tokens != [] && Search(cfg, s, tokens) == Some(id)
    requires s'.tree == s.tree && s'.clusters.Keys == s.clusters.Keys
    requires forall c :: c in s.clusters ==> s'.clusters[c].template == s.clusters[c].template
    ensures Search(cfg, s', tokens) == Some(id)
  {
    var leaf := SearchLeaf(cfg, s, tokens).value;
    BestSameTemplates(cfg.simThreshold, s.clusters, s'.clusters, s.tree[leaf], tokens);
  }

  /** Once the template of the best cluster covers the message, the scan keeps that cluster. */
  lemma StableAfterChange(cfg: Config, s: State, s': State, tokens: Tokens, id: nat, leaf: Path)
    requires WellFormed(s) && WellFormed(s') && tokens != [] && cfg.simThreshold <= 1.0
    requires Search(cfg, s, tokens) == Some(id) && !Covers(s.clusters[id].template, tokens)
    requires SearchLeaf(cfg, s, tokens) == SearchLeaf(cfg, s', tokens) == Some(leaf) && s'.tree[leaf] == s.tree[leaf]
    requires id in s'.clusters && Covers(s'.clusters[id].template, tokens)
    requires forall c :: c in s.clusters && c != id ==> c in s'.clusters && s'.clusters[c] == s.clusters[c]
    ensures Search(cfg, s', tokens) == Some(id)
  {
    var ids := s.tree[leaf];
    SimilarityRange(s.clusters[id].template, tokens);
    BestIsFirstMaximum(cfg.simThreshold, s.clusters, ids, tokens);
    forall c | c in ids && c != id ensures Similarity(s'.clusters[c].template, tokens) < 1.0 {
      var i :| 0 <= i < |ids| && ids[i] == c;
      assert Similarity(s.clusters[ids[i]].template, tokens) < 1.0;
    }
    BestUnique(cfg.simThreshold, s'.clusters, ids, tokens, id);
  }

  lemma StableAfterMerge(cfg: Config, s: State, h: History, s': State, tokens: Tokens, id: nat)
    requires Inv(cfg, s, h) && WellFormed(s) && tokens != [] && AllWords(tokens) && cfg.simThreshold <= 1.0
    requires Search(cfg, s, tokens) == Some(id) && s' == Merge(cfg, s, id, tokens) && WellFormed(s')
    ensures Search(cfg, s', tokens) == Some(id) && Covers(s'.clusters[id].template, tokens)
  {
    hide Faithful, Listings, Attached, Shadowed, Best, Search, Ids;
    SearchFinds(cfg, s, tokens);
    var t, t' := s.clusters[id].template, s'.clusters[id].template;
    var leaf := SearchLeaf(cfg, s, tokens).value;
    GeneralizeCovers(t, tokens);
    if t' == t {
      StableAfterCovered(cfg, s, s', tokens, id);
    } else {
      ReindexEffect(cfg, s.tree, t', id);
      ReindexDoesNotDivert(cfg, s, h, tokens, id, s'.tree);
      assert SearchLeaf(cfg, s', tokens) == SearchLeaf(cfg, s.(tree := s'.tree), tokens);
      StableAfterChange(cfg, s, s', tokens, id, leaf);
    }
  }
}
