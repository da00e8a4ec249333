/**
 * The clustering of Drain3 on values: a map from tree paths to ordered lists of cluster ids,
 * and a map from ids to clusters. The classes of module Drain3 refine these functions.
 */
module DrainModel {
  import opened Text
  import opened Tokenizer

  /** The keys that lead from the root to a node: the length key first, then tokens or wildcards. */
  datatype Path = Root | At(parent: Path, key: string)

  datatype Config = Config(
    tokenizer: TokenizerConfig,
    simThreshold: real,
    maxNodeDepth: int,
    maxChildren: int)

  datatype Cluster = Cluster(template: Tokens, size: nat)

  type Clusters = map<nat, Cluster>

  type Tree = map<Path, seq<nat>>

  datatype StateOf<C, T> = State(clusterID: nat, clusters: C, tree: T)

  /** The last id given, the clusters by id, and the ids listed at every node. */
  type State = StateOf<Clusters, Tree>

  datatype ChangeType = Nothing | Created | TemplateChanged | SizeChanged

  datatype Result = Result(
    changeType: ChangeType,
    clusterID: nat,
    clusterSize: nat,
    clusterCount: nat,
    templateMined: string)

  const INITIAL: State := State(0, map[], map[Root := []])

  /** Number of token levels of the tree for a message of n tokens. */
  function Levels(cfg: Config, n: nat): (k: nat)
    ensures k <= n
  {
    if cfg.maxNodeDepth <= 1 then 0 else if cfg.maxNodeDepth - 1 < n then cfg.maxNodeDepth - 1 else n
  }

  ghost predicate Distinct(ids: seq<nat>) {
    forall i, j :: 0 <= i < j < |ids| ==> ids[i] != ids[j]
  }

  // Similarity and templates

  /** Position i of the template agrees with the message. */
  predicate Agrees(template: Tokens, tokens: Tokens, i: nat)
    requires i < |template| == |tokens|
  {
    template[i] == tokens[i] || template[i] == WILDCARD
  }

  predicate Covers(template: Tokens, tokens: Tokens) {
    |template| == |tokens| && forall i :: 0 <= i < |template| ==> Agrees(template, tokens, i)
  }

  /** Agreeing positions among the first n. */
  function MatchCount(template: Tokens, tokens: Tokens, n: nat): (k: nat)
    requires n <= |template| == |tokens|
    ensures k <= n
    ensures k == n <==> forall i :: 0 <= i < n ==> Agrees(template, tokens, i)
  {
    if n == 0 then 0
    else MatchCount(template, tokens, n - 1) + (if Agrees(template, tokens, n - 1) then 1 else 0)
  }

  function Similarity(template: Tokens, tokens: Tokens): real
    requires |tokens| > 0
  {
    if |template| != |tokens| then 0.0
    else (MatchCount(template, tokens, |tokens|) as real) / (|tokens| as real)
  }

  lemma RatioIsOne(k: real, n: real)
    requires 0.0 <= k <= n && n > 0.0
    ensures 0.0 <= k / n <= 1.0 && (k / n == 1.0 <==> k == n)
  {
    assert (k / n) * n == k;
  }

  /** Similarity is a ratio, and it is 1 exactly for the messages that the template covers. */
  lemma SimilarityRange(template: Tokens, tokens: Tokens)
    requires |tokens| > 0
    ensures 0.0 <= Similarity(template, tokens) <= 1.0
    ensures Similarity(template, tokens) == 1.0 <==> Covers(template, tokens)
  {
    if |template| == |tokens| {
      RatioIsOne(MatchCount(template, tokens, |tokens|) as real, |tokens| as real);
    }
  }

  function Generalize(template: Tokens, tokens: Tokens): (t: Tokens)
    requires |template| == |tokens|
    ensures |t| == |template|
  {
    seq(|template|, i requires 0 <= i < |template| =>
      if template[i] != tokens[i] && template[i] != WILDCARD then WILDCARD else template[i])
  }

  // The prefix tree

  /** The path of the first k of some keys, under the length key of n. */
  function WayTo(n: nat, keys: seq<string>, k: nat): (p: Path)
    requires k <= |keys|
    ensures p.At?
  {
    if k == 0 then At(Root, Itoa(n)) else At(WayTo(n, keys, k - 1), keys[k - 1])
  }

  /** The path of k wildcards, under the length key of n. */
  function Wilds(n: nat, k: nat): (p: Path)
    ensures p.At?
  {
    if k == 0 then At(Root, Itoa(n)) else At(Wilds(n, k - 1), WILDCARD)
  }

  function Depth(p: Path): nat {
    if p.Root? then 0 else Depth(p.parent) + 1
  }

  lemma {:induction false} DepthOfWilds(n: nat, k: nat)
    ensures Depth(Wilds(n, k)) == k + 1
  {
    if k > 0 {
      DepthOfWilds(n, k - 1);
    }
  }

  lemma {:induction false} DepthOfWay(n: nat, keys: seq<string>, k: nat)
    requires k <= |keys|
    ensures Depth(WayTo(n, keys, k)) == k + 1
  {
    if k > 0 {
      DepthOfWay(n, keys, k - 1);
    }
  }

  function LeafPath(cfg: Config, tokens: Tokens): Path {
    WayTo(|tokens|, tokens, Levels(cfg, |tokens|))
  }

  function WildLeaf(cfg: Config, n: nat): Path {
    Wilds(n, Levels(cfg, n))
  }

  /** Where the search goes from a node of level i, down to level k: the exact child first, then the wildcard. */
  function Descend(tree: Tree, path: Path, tokens: Tokens, i: nat, k: nat): (q: Option<Path>)
    requires path in tree && i <= k <= |tokens|
    ensures q.Some? ==> q.value in tree
    decreases k - i
  {
    if i == k then Some(path)
    else if At(path, tokens[i]) in tree then Descend(tree, At(path, tokens[i]), tokens, i + 1, k)
    else if At(path, WILDCARD) in tree then Descend(tree, At(path, WILDCARD), tokens, i + 1, k)
    else None
  }

  function BestSimilarity(clusters: Clusters, best: Option<nat>, tokens: Tokens): real
    requires |tokens| > 0
    requires best.Some? ==> best.value in clusters
  {
    if best.None? then 0.0 else Similarity(clusters[best.value].template, tokens)
  }

  predicate Known(clusters: Clusters, ids: seq<nat>) {
    forall i :: 0 <= i < |ids| ==> ids[i] in clusters
  }

  /** The cluster a leaf's loop keeps after scanning the list from the left. */
  function Best(th: real, clusters: Clusters, ids: seq<nat>, tokens: Tokens): (best: Option<nat>)
    requires |tokens| > 0 && Known(clusters, ids)
    ensures best.Some? ==> best.value in ids
  {
    if ids == [] then None
    else
      var best := Best(th, clusters, ids[..|ids| - 1], tokens);
      var id := ids[|ids| - 1];
      var s := Similarity(clusters[id].template, tokens);
      if s > BestSimilarity(clusters, best, tokens) && s >= th then Some(id) else best
  }

  lemma BestStep(th: real, clusters: Clusters, ids: seq<nat>, tokens: Tokens, i: nat)
    requires |tokens| > 0 && Known(clusters, ids) && i < |ids|
    ensures var best, s := Best(th, clusters, ids[..i], tokens), Similarity(clusters[ids[i]].template, tokens);
      Best(th, clusters, ids[..i + 1], tokens)
      == if s > BestSimilarity(clusters, best, tokens) && s >= th then Some(ids[i]) else best
  {
    assert ids[..i + 1][..i] == ids[..i];
  }

  /** It is the first of the most similar ones; nothing is kept iff none is similar enough. */
  lemma {:induction false} BestIsFirstMaximum(th: real, clusters: Clusters, ids: seq<nat>, tokens: Tokens)
    requires |tokens| > 0 && Known(clusters, ids)
    ensures var best := Best(th, clusters, ids, tokens);
      && (best.None? <==> forall i :: 0 <= i < |ids| ==>
            Similarity(clusters[ids[i]].template, tokens) < th || Similarity(clusters[ids[i]].template, tokens) <= 0.0)
      && (best.Some? ==>
            var s := BestSimilarity(clusters, best, tokens);
            s >= th && s > 0.0
            && (forall i :: 0 <= i < |ids| ==>
               Similarity(clusters[ids[i]].template, tokens) <= s || Similarity(clusters[ids[i]].template, tokens) < th)
            && exists k :: 0 <= k < |ids| && ids[k] == best.value
                 && forall i :: 0 <= i < k ==> Similarity(clusters[ids[i]].template, tokens) < s)
  {
    if ids != [] {
      var init, id := ids[..|ids| - 1], ids[|ids| - 1];
      BestIsFirstMaximum(th, clusters, init, tokens);
      assert forall i :: 0 <= i < |init| ==> ids[i] == init[i];
      var b := Best(th, clusters, init, tokens);
      var s := Similarity(clusters[id].template, tokens);
      if s > BestSimilarity(clusters, b, tokens) && s >= th {
        var k := |ids| - 1;
        assert ids[k] == id && forall i :: 0 <= i < k ==> Similarity(clusters[ids[i]].template, tokens) < s;
      } else if b.Some? {
        var k :| 0 <= k < |init| && init[k] == b.value
                 && forall i :: 0 <= i < k ==>
                    Similarity(clusters[init[i]].template, tokens) < BestSimilarity(clusters, b, tokens);
        assert ids[k] == b.value;
      }
    }
  }

  /** Every listed id has a cluster, and the root exists. */
  predicate WellFormed(s: State) {
    && Root in s.tree
    && forall p :: p in s.tree ==> Known(s.clusters, s.tree[p])
  }

  function SearchLeaf(cfg: Config, s: State, tokens: Tokens): Option<Path>
    requires |tokens| > 0
  {
    var top := At(Root, Itoa(|tokens|));
    if top !in s.tree then None else Descend(s.tree, top, tokens, 0, Levels(cfg, |tokens|))
  }

  function Search(cfg: Config, s: State, tokens: Tokens): (found: Option<nat>)
    requires |tokens| > 0 && WellFormed(s)
    ensures found.Some? ==> found.value in s.clusters
  {
    match SearchLeaf(cfg, s, tokens)
    case None => None
    case Some(leaf) => Best(cfg.simThreshold, s.clusters, s.tree[leaf], tokens)
  }

  /** Adds an empty node unless the path exists. */
  function Ensure(tree: Tree, p: Path): Tree {
    if p in tree then tree else tree[p := []]
  }

  /** `after` has the nodes of `before` with their lists; what is new is empty. */
  predicate Extends(before: Tree, after: Tree) {
    && (forall p :: p in before ==> p in after && after[p] == before[p])
    && (forall p :: p in after && p !in before ==> after[p] == [])
  }

  predicate OnWay(tokens: Tokens, p: Path, k: nat)
    requires k <= |tokens|
  {
    exists j :: 0 <= j <= k && p == WayTo(|tokens|, tokens, j)
  }

  /** Creates the nodes on the way of a message down to level k. */
  function EnsureWay(tree: Tree, tokens: Tokens, k: nat): Tree
    requires k <= |tokens|
  {
    Ensure(if k == 0 then tree else EnsureWay(tree, tokens, k - 1), WayTo(|tokens|, tokens, k))
  }

  /** Exactly the nodes of the way are new, and they are empty. */
  lemma {:induction false} EnsureWayNodes(tree: Tree, tokens: Tokens, k: nat)
    requires k <= |tokens|
    ensures var t := EnsureWay(tree, tokens, k);
      Extends(tree, t) && forall p :: p in t <==> p in tree || OnWay(tokens, p, k)
  {
    if k > 0 {
      EnsureWayNodes(tree, tokens, k - 1);
      assert forall p :: OnWay(tokens, p, k) <==> p == WayTo(|tokens|, tokens, k) || OnWay(tokens, p, k - 1);
    } else {
      assert forall p :: OnWay(tokens, p, 0) <==> p == WayTo(|tokens|, tokens, 0);
    }
  }

  /** A node of the i-th step of re-indexing: one more wildcard, or the literal beside it. */
  predicate WildNode(template: Tokens, p: Path, i: nat)
    requires i < |template|
  {
    var at := Wilds(|template|, i);
    p == At(at, WILDCARD) || (template[i] != WILDCARD && p == At(at, template[i]))
  }

  predicate IsWildNode(template: Tokens, p: Path, k: nat)
    requires k <= |template|
  {
    exists i :: 0 <= i < k && WildNode(template, p, i)
  }

  /** The wildcard child of a node, and before it the child for a literal key. */
  function EnsureBeside(tree: Tree, at: Path, key: string): Tree {
    Ensure(if key == WILDCARD then tree else Ensure(tree, At(at, key)), At(at, WILDCARD))
  }

  /** Re-indexing down to level k: an empty node for each literal, and the wildcards beside them. */
  function EnsureWild(tree: Tree, template: Tokens, k: nat): Tree
    requires k <= |template|
  {
    if k == 0 then Ensure(tree, Wilds(|template|, 0))
    else EnsureBeside(EnsureWild(tree, template, k - 1), Wilds(|template|, k - 1), template[k - 1])
  }

  /** Exactly the nodes of re-indexing are new, and they are empty. */
  lemma {:induction false} EnsureWildNodes(tree: Tree, template: Tokens, k: nat)
    requires k <= |template|
    ensures var t := EnsureWild(tree, template, k);
      && Extends(tree, t)
      && forall p :: p in t <==> p in tree || p == Wilds(|template|, 0) || IsWildNode(template, p, k)
  {
    if k > 0 {
      EnsureWildNodes(tree, template, k - 1);
      assert forall p :: IsWildNode(template, p, k) <==> WildNode(template, p, k - 1) || IsWildNode(template, p, k - 1);
    }
  }

  function Evict(cfg: Config, ids: seq<nat>): (kept: seq<nat>)
    ensures forall i :: 0 <= i < |kept| ==> kept[i] in ids
  {
    if cfg.maxChildren > 0 && |ids| > cfg.maxChildren then ids[1..] else ids
  }

  /** The tree with the way of a message, down to its leaf. */
  function Grow(cfg: Config, tree: Tree, tokens: Tokens): (t: Tree)
    ensures LeafPath(cfg, tokens) in t
  {
    EnsureWay(tree, tokens, Levels(cfg, |tokens|))
  }

  function Create(cfg: Config, s: State, tokens: Tokens): State
    requires |tokens| > 0
  {
    var id, leaf, t := s.clusterID + 1, LeafPath(cfg, tokens), Grow(cfg, s.tree, tokens);
    State(id, s.clusters[id := Cluster(tokens, 1)], t[leaf := Evict(cfg, t[leaf] + [id])])
  }

  /** The tree with the wildcard path of a template and the literals beside it. */
  function GrowWild(cfg: Config, tree: Tree, template: Tokens): (t: Tree)
    ensures WildLeaf(cfg, |template|) in t
  {
    EnsureWild(tree, template, Levels(cfg, |template|))
  }

  function Reindex(cfg: Config, tree: Tree, template: Tokens, id: nat): Tree
    requires |template| > 0
  {
    var leaf, t := WildLeaf(cfg, |template|), GrowWild(cfg, tree, template);
    if id in t[leaf] then t else t[leaf := t[leaf] + [id]]
  }

  function Merge(cfg: Config, s: State, id: nat, tokens: Tokens): State
    requires id in s.clusters && |tokens| > 0
  {
    var c := s.clusters[id];
    if |c.template| != |tokens| then s.(clusters := s.clusters[id := c.(size := c.size + 1)])
    else
      var t := Generalize(c.template, tokens);
      s.(clusters := s.clusters[id := Cluster(t, c.size + 1)],
         tree := if t == c.template then s.tree else Reindex(cfg, s.tree, t, id))
  }

  /** The template after a message was merged into its cluster. */
  function MergedTemplate(template: Tokens, tokens: Tokens): Tokens {
    if |template| != |tokens| then template else Generalize(template, tokens)
  }

  function Add(cfg: Config, s: State, tokens: Tokens): (State, Result)
    requires WellFormed(s)
  {
    if tokens == [] then (s, Result(Nothing, 0, 0, |s.clusters|, ""))
    else
      match Search(cfg, s, tokens)
      case Some(id) =>
        var s' := Merge(cfg, s, id, tokens);
        var was, now := Join(s.clusters[id].template, " "), Join(s'.clusters[id].template, " ");
        (s', Result(if was != now then TemplateChanged else SizeChanged, id, s'.clusters[id].size, |s'.clusters|, now))
      case None =>
        var s' := Create(cfg, s, tokens);
        (s', Result(Created, s'.clusterID, 1, |s'.clusters|, Join(tokens, " ")))
  }

  lemma AddFoundParts(cfg: Config, s: State, id: nat, tokens: Tokens, s': State, r: Result)
    requires WellFormed(s) && tokens != [] && Search(cfg, s, tokens) == Some(id)
    requires var c := s.clusters[id];
      var t := MergedTemplate(c.template, tokens);
      && s'.clusterID == s.clusterID
      && s'.clusters == s.clusters[id := Cluster(t, c.size + 1)]
      && s'.tree == (if t == c.template then s.tree else Reindex(cfg, s.tree, t, id))
      && r == Result(if Join(c.template, " ") != Join(t, " ") then TemplateChanged else SizeChanged,
                     id, c.size + 1, |s'.clusters|, Join(t, " "))
    ensures (s', r) == Add(cfg, s, tokens)
  {
  }

  lemma AddNewParts(cfg: Config, s: State, tokens: Tokens, s': State, r: Result)
    requires WellFormed(s) && tokens != [] && Search(cfg, s, tokens).None?
    requires var leaf, t := LeafPath(cfg, tokens), Grow(cfg, s.tree, tokens);
      && s'.clusterID == s.clusterID + 1
      && s'.clusters == s.clusters[s'.clusterID := Cluster(tokens, 1)]
      && s'.tree == t[leaf := Evict(cfg, t[leaf] + [s'.clusterID])]
      && r == Result(Created, s'.clusterID, 1, |s'.clusters|, Join(tokens, " "))
    ensures (s', r) == Add(cfg, s, tokens)
  {
  }

  /** The cluster that the text of an id stands for. */
  function TemplateOf(s: State, id: string): Option<Cluster> {
    var n := ScanInt(id);
    if n.Some? && n.value in s.clusters then Some(s.clusters[n.value]) else None
  }

  // Sums over clusters

  /** The sum of a measure over the clusters 1 to n. */
  ghost function Total(clusters: Clusters, n: nat, f: Cluster -> nat): nat {
    if n == 0 then 0 else Total(clusters, n - 1, f) + (if n in clusters then f(clusters[n]) else 0)
  }

  lemma {:induction false} TotalUpdate(clusters: Clusters, n: nat, f: Cluster -> nat, id: nat, c: Cluster)
    requires 1 <= id <= n
    ensures Total(clusters[id := c], n, f)
      == Total(clusters, n, f) - (if id in clusters then f(clusters[id]) else 0) + f(c)
  {
    if n == id {
      TotalFrame(clusters, clusters[id := c], n - 1, f);
    } else {
      TotalUpdate(clusters, n - 1, f, id, c);
    }
  }

  lemma {:induction false} TotalFrame(a: Clusters, b: Clusters, n: nat, f: Cluster -> nat)
    requires forall i :: 1 <= i <= n ==> (i in a <==> i in b) && (i in a ==> a[i] == b[i])
    ensures Total(a, n, f) == Total(b, n, f)
  {
    if n > 0 {
      TotalFrame(a, b, n - 1, f);
    }
  }

  function SizeOf(c: Cluster): nat { c.size }

  lemma {:induction false} TotalWithout(clusters: Clusters, n: nat, f: Cluster -> nat, id: nat)
    ensures Total(clusters - {id}, n, f)
      == Total(clusters, n, f) - (if id in clusters && 1 <= id <= n then f(clusters[id]) else 0)
  {
    if n > 0 {
      TotalWithout(clusters, n - 1, f, id);
    }
  }

  lemma {:induction false} TotalOfNone(n: nat, f: Cluster -> nat)
    ensures Total(map[], n, f) == 0
  {
    if n > 0 {
      TotalOfNone(n - 1, f);
    }
  }
}
