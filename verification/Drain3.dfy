/** Drain3 as it is: a mutable prefix tree of nodes that share mutable clusters. */
module Drain3 {
  import opened Text
  import opened Tokenizer
  import opened DrainModel
  import opened DrainInvariants
  import opened Selection
  import opened Sequences

  class LogCluster {
    const clusterID: nat
    var logTemplate: Tokens
    var size: nat

    constructor (id: nat, template: Tokens)
      ensures clusterID == id && logTemplate == template && size == 1
    {
      clusterID, logTemplate, size := id, template, 1;
    }
  }

  class Node {
    const depth: nat
    ghost const path: Path
    var children: map<string, Node>
    var clusters: seq<LogCluster>

    constructor (depth: nat, ghost path: Path)
      ensures this.depth == depth && this.path == path && children == map[] && clusters == []
    {
      this.depth, this.path, children, clusters := depth, path, map[], [];
    }
  }

  type NodeMap = map<Path, Node>

  /** The nodes form the tree of their paths: children are exactly the nodes one key further. */
  ghost predicate Linked(root: Node, nodes: NodeMap, all: set<Node>)
    reads all`children
  {
    && Root in nodes && nodes[Root] == root
    && (forall p: Path {:trigger nodes[p]} :: p in nodes ==> nodes[p].path == p && nodes[p] in all)
    && (forall p: Path {:trigger nodes[p]} :: p in nodes && p.At? ==>
          p.parent in nodes && p.key in nodes[p.parent].children)
    && (forall p: Path, k: string {:trigger k in nodes[p].children} {:trigger nodes[p].children[k]} ::
          p in nodes && k in nodes[p].children ==> At(p, k) in nodes && nodes[p].children[k] == nodes[At(p, k)])
  }

  /** Every node lists stored clusters, by the ids of the abstract tree. */
  ghost predicate Listed(nodes: NodeMap, tree: Tree, clusters: map<nat, LogCluster>, all: set<Node>)
    reads all`clusters
  {
    && nodes.Keys == tree.Keys
    && (forall p: Path {:trigger nodes[p]} :: p in nodes ==> nodes[p] in all && |nodes[p].clusters| == |tree[p]|)
    && (forall p: Path, i: nat {:trigger tree[p][i]} {:trigger nodes[p].clusters[i]} ::
          p in nodes && i < |tree[p]| ==>
            tree[p][i] in clusters && nodes[p].clusters[i] == clusters[tree[p][i]])
  }

  /** Clusters are stored under their own id, and their contents are the abstract clusters. */
  ghost predicate Stored(clusters: map<nat, LogCluster>, contents: Clusters, all: set<LogCluster>)
    reads all
  {
    && clusters.Keys == contents.Keys
    && (forall id {:trigger clusters[id]} :: id in clusters ==>
          clusters[id] in all && clusters[id].clusterID == id
          && contents[id] == Cluster(clusters[id].logTemplate, clusters[id].size))
  }

  lemma RootLinked(root: Node)
    requires root.path == Root && root.children == map[] && root.clusters == []
    ensures Linked(root, map[Root := root], {root})
    ensures Listed(map[Root := root], map[Root := []], map[], {root})
  {
  }

  lemma UpdateTwice(m: Clusters, id: nat, a: Cluster, b: Cluster)
    ensures m[id := a][id := b] == m[id := b]
  {
  }

  lemma ListedChild(nodes: NodeMap, tree: Tree, clusters: map<nat, LogCluster>, all: set<Node>, at: Path, child: Node)
    requires Listed(nodes, tree, clusters, all) && child.clusters == [] && at !in nodes
    ensures Listed(nodes[at := child], tree[at := []], clusters, all + {child})
  {
  }

  /** A new empty child below a node of a linked tree. */
  method HangChild(root: Node, ghost nodes: NodeMap, ghost all: set<Node>, node: Node, key: string, ghost path: Path)
    returns (child: Node)
    requires Linked(root, nodes, all) && path in nodes && nodes[path] == node && key !in node.children
    modifies node`children
    ensures fresh(child) && child.path == At(path, key) && child.clusters == [] && At(path, key) !in nodes
    ensures Linked(root, nodes[At(path, key) := child], all + {child})
  {
    child := new Node(node.depth + 1, At(path, key));
    node.children := node.children[key := child];
  }

  /** Replacing the list of one node by clusters with the given ids. */
  method SetList(ghost nodes: NodeMap, ghost tree: Tree, ghost clusters: map<nat, LogCluster>, ghost all: set<Node>,
                 node: Node, list: seq<LogCluster>, ghost ids: seq<nat>)
    requires Listed(nodes, tree, clusters, all)
    requires forall p: Path {:trigger nodes[p]} :: p in nodes ==> nodes[p].path == p
    requires node.path in nodes && nodes[node.path] == node
    requires |ids| == |list| && forall i :: 0 <= i < |ids| ==> ids[i] in clusters && list[i] == clusters[ids[i]]
    modifies node`clusters
    ensures Listed(nodes, tree[node.path := ids], clusters, all)
  {
    node.clusters := list;
  }

  /** One more message in a cluster. */
  method CountMessage(ghost clusters: map<nat, LogCluster>, ghost contents: Clusters, ghost all: set<LogCluster>,
      cluster: LogCluster)
    requires Stored(clusters, contents, all)
    requires cluster.clusterID in clusters && clusters[cluster.clusterID] == cluster
    modifies cluster`size
    ensures Stored(clusters, contents[cluster.clusterID := Cluster(cluster.logTemplate, old(cluster.size) + 1)], all)
    ensures cluster.size == old(cluster.size) + 1
  {
    cluster.size := cluster.size + 1;
  }

  /** Wildcards where the template differs from the message, in place. */
  method ReplaceDifferences(cluster: LogCluster, tokens: Tokens) returns (changed: bool)
    requires |cluster.logTemplate| == |tokens|
    modifies cluster`logTemplate
    ensures cluster.logTemplate == Generalize(old(cluster.logTemplate), tokens)
    ensures changed <==> cluster.logTemplate != old(cluster.logTemplate)
  {
    changed := false;
    ghost var before := cluster.logTemplate;
    for i := 0 to |cluster.logTemplate|
      invariant |cluster.logTemplate| == |before|
      invariant forall j :: 0 <= j < i ==> cluster.logTemplate[j] == Generalize(before, tokens)[j]
      invariant forall j :: i <= j < |before| ==> cluster.logTemplate[j] == before[j]
      invariant changed <==> exists j :: 0 <= j < i && cluster.logTemplate[j] != before[j]
    {
      if cluster.logTemplate[i] != tokens[i] && cluster.logTemplate[i] != WILDCARD {
        cluster.logTemplate := cluster.logTemplate[i := WILDCARD];
        changed := true;
      }
    }
  }

  method GeneralizeTemplate(ghost clusters: map<nat, LogCluster>, ghost contents: Clusters, ghost all: set<LogCluster>,
                            cluster: LogCluster, tokens: Tokens)
    returns (changed: bool)
    requires Stored(clusters, contents, all) && |cluster.logTemplate| == |tokens|
    requires cluster.clusterID in clusters && clusters[cluster.clusterID] == cluster
    modifies cluster`logTemplate
    ensures cluster.logTemplate == Generalize(old(cluster.logTemplate), tokens)
    ensures changed <==> cluster.logTemplate != old(cluster.logTemplate)
    ensures Stored(clusters, contents[cluster.clusterID := Cluster(cluster.logTemplate, cluster.size)], all)
  {
    changed := ReplaceDifferences(cluster, tokens);
  }

  method CalculateSimilarity(template: Tokens, tokens: Tokens) returns (similarity: real)
    requires |tokens| > 0
    ensures similarity == Similarity(template, tokens)
  {
    if |template| != |tokens| {
      return 0.0;
    }
    var matches := 0;
    for i := 0 to |template|
      invariant matches == MatchCount(template, tokens, i)
    {
      if template[i] == tokens[i] || template[i] == WILDCARD {
        matches := matches + 1;
      }
    }
    return (matches as real) / (|template| as real);
  }

  /** What the ghost field of the class records about the heap. */
  datatype ShadowOf<C> = Shadow(
    nodes: NodeMap,               // every node of the tree, by its path
    tree: Tree,                   // the ids listed at every node
    contents: C,                  // the contents of every stored cluster
    allNodes: set<Node>,
    allClusters: set<LogCluster>)

  type Shadow = ShadowOf<Clusters>

  class Drain3 {
    const config: Config
    var clusters: map<nat, LogCluster>
    var treeRoot: Node
    var clusterID: nat
    ghost var g: Shadow

    ghost predicate Valid()
      reads this`treeRoot, this`clusters, this`g, g.allNodes, g.allClusters
    {
      && Linked(treeRoot, g.nodes, g.allNodes)
      && Listed(g.nodes, g.tree, clusters, g.allNodes)
      && Stored(clusters, g.contents, g.allClusters)
    }

    /** The abstract state that module DrainModel computes with. */
    ghost function View(): State
      reads this`clusterID, this`g
    {
      State(clusterID, g.contents, g.tree)
    }

    lemma StoredKeys()
      requires Valid()
      ensures clusters.Keys == g.contents.Keys
    {
    }

    constructor (config: Config)
      ensures Valid() && Sound(View()) && fresh(g.allNodes) && fresh(g.allClusters) && this.config == config
      ensures View() == INITIAL
    {
      this.config := config;
      var root := new Node(0, Root);
      treeRoot, clusters, clusterID := root, map[], 0;
      g := Shadow(map[Root := root], map[Root := []], map[], {root}, {});
      new;
      RootLinked(root);
    }

    method Reset()
      requires Valid()
      modifies this
      ensures Valid() && Sound(View()) && fresh(g.allNodes) && fresh(g.allClusters)
      ensures View() == INITIAL
    {
      clusters := map[];
      treeRoot := new Node(0, Root);
      clusterID := 0;
      g := Shadow(map[Root := treeRoot], map[Root := []], map[], {treeRoot}, {});
      RootLinked(treeRoot);
    }

    // Search

    /** The traversal down to a leaf: by length, then by tokens or wildcards. */
    method FindLeaf(tokens: Tokens) returns (leaf: Node?, ghost path: Path)
      requires Valid() && WellFormed(View()) && tokens != []
      ensures leaf == null <==> SearchLeaf(config, View(), tokens).None?
      ensures leaf != null ==>
        SearchLeaf(config, View(), tokens) == Some(path) && path in g.nodes && g.nodes[path] == leaf
    {
      hide Stored, WellFormed;
      var currentNode := treeRoot;
      var currentDepth := 0;
      var lengthKey := Itoa(|tokens|);
      path := At(Root, lengthKey);
      if lengthKey !in currentNode.children {
        return null, path;
      }
      currentNode := currentNode.children[lengthKey];
      currentDepth := currentDepth + 1;
      ghost var k := Levels(config, |tokens|);
      while currentDepth < config.maxNodeDepth && currentDepth - 1 < |tokens|
        invariant 1 <= currentDepth <= k + 1
        invariant path in g.nodes && g.nodes[path] == currentNode
        invariant Descend(g.tree, path, tokens, currentDepth - 1, k) == SearchLeaf(config, View(), tokens)
        decreases |tokens| - currentDepth
      {
        var token := tokens[currentDepth - 1];
        if token in currentNode.children {
          currentNode := currentNode.children[token];
          path := At(path, token);
        } else if WILDCARD in currentNode.children {
          currentNode := currentNode.children[WILDCARD];
          path := At(path, WILDCARD);
        } else {
          return null, path;
        }
        currentDepth := currentDepth + 1;
      }
      return currentNode, path;
    }

    method TreeSearch(tokens: Tokens) returns (cluster: LogCluster?)
      requires Valid() && WellFormed(View())
      ensures tokens == [] ==> cluster == null
      ensures tokens != [] ==> (cluster == null <==> Search(config, View(), tokens).None?)
      ensures tokens != [] && cluster != null ==>
        Search(config, View(), tokens).value in clusters && clusters[Search(config, View(), tokens).value] == cluster
    {
      hide Valid, Linked, Listed, Stored, WellFormed, SearchLeaf;
      if tokens == [] {
        return null;
      }
      var leaf, path := FindLeaf(tokens);
      if leaf == null {
        return null;
      }
      cluster := BestInLeaf(leaf, path, tokens);
    }

    /** The scan of one leaf. */
    method BestInLeaf(leaf: Node, ghost path: Path, tokens: Tokens) returns (bestCluster: LogCluster?)
      requires Valid() && WellFormed(View()) && tokens != [] && path in g.nodes && g.nodes[path] == leaf
      ensures var best := Best(config.simThreshold, g.contents, g.tree[path], tokens);
        && (bestCluster == null <==> best.None?)
        && (bestCluster != null ==> best.value in clusters && clusters[best.value] == bestCluster)
    {
      bestCluster := null;
      var bestSimilarity := 0.0;
      ghost var ids, contents := g.tree[path], g.contents;
      ghost var best := None;
      for i := 0 to |leaf.clusters|
        invariant best == Best(config.simThreshold, contents, ids[..i], tokens)
        invariant bestCluster == null <==> best.None?
        invariant bestCluster != null ==> best.value in clusters && clusters[best.value] == bestCluster
        invariant bestSimilarity == BestSimilarity(contents, best, tokens)
      {
        var cluster := leaf.clusters[i];
        assert cluster == clusters[ids[i]];
        BestStep(config.simThreshold, contents, ids, tokens, i);
        var similarity := CalculateSimilarity(cluster.logTemplate, tokens);
        if similarity > bestSimilarity && similarity >= config.simThreshold {
          bestSimilarity := similarity;
          bestCluster := cluster;
          best := Some(ids[i]);
        }
      }
      assert ids[..|leaf.clusters|] == ids;
    }

    // Insertion

    method AddChild(node: Node, key: string, ghost path: Path) returns (child: Node)
      requires Valid() && path in g.nodes && g.nodes[path] == node && key !in node.children
      modifies this`g, node`children
      ensures Valid() && fresh(child) && child.path == At(path, key)
      ensures g == old(g).(nodes := old(g.nodes)[At(path, key) := child], tree := old(g.tree)[At(path, key) := []],
                           allNodes := old(g.allNodes) + {child})
    {
      hide Linked, Listed, Stored;
      ghost var at := At(path, key);
      child := HangChild(treeRoot, g.nodes, g.allNodes, node, key, path);
      ListedChild(g.nodes, g.tree, clusters, g.allNodes, at, child);
      g := g.(nodes := g.nodes[at := child], tree := g.tree[at := []], allNodes := g.allNodes + {child});
    }

    /** The child for a key, created empty when it is missing. */
    method EnsureChild(node: Node, key: string, ghost path: Path) returns (child: Node)
      requires Valid() && path in g.nodes && g.nodes[path] == node
      modifies this`g, node`children
      ensures Valid() && old(g.allNodes) <= g.allNodes
        && forall n :: n in g.allNodes && n !in old(g.allNodes) ==> fresh(n)
      ensures g.contents == old(g.contents) && g.allClusters == old(g.allClusters)
      ensures path in g.nodes && g.nodes[path] == node
      ensures child.path == At(path, key) && child.path in g.nodes && g.nodes[child.path] == child
        && child in g.allNodes
      ensures g.tree == Ensure(old(g.tree), At(path, key))
    {
      if key in node.children {
        child := node.children[key];
      } else {
        child := AddChild(node, key, path);
      }
    }

    method Store(cluster: LogCluster)
      requires Valid() && cluster.clusterID !in clusters
      modifies this`g, this`clusters
      ensures Valid()
      ensures clusters == old(clusters)[cluster.clusterID := cluster]
      ensures g == old(g).(contents := old(g.contents)[cluster.clusterID := Cluster(cluster.logTemplate, cluster.size)],
                           allClusters := old(g.allClusters) + {cluster})
    {
      clusters := clusters[cluster.clusterID := cluster];
      g := g.(contents := g.contents[cluster.clusterID := Cluster(cluster.logTemplate, cluster.size)],
              allClusters := g.allClusters + {cluster});
    }

    /** Appends to the list of a node; with `bounded`, the oldest is evicted when the list grows too long. */
    method Append(node: Node, cluster: LogCluster, bounded: bool)
      requires Valid() && node.path in g.nodes && g.nodes[node.path] == node
      requires cluster.clusterID in clusters && clusters[cluster.clusterID] == cluster
      modifies this`g, node`clusters
      ensures Valid()
      ensures var ids := old(g.tree)[node.path] + [cluster.clusterID];
        g == old(g).(tree := old(g.tree)[node.path := if bounded then Evict(config, ids) else ids])
    {
      var list := node.clusters + [cluster];
      ghost var ids := g.tree[node.path] + [cluster.clusterID];
      assert forall i :: 0 <= i < |node.clusters| ==> node.clusters[i] == clusters[g.tree[node.path][i]];
      if bounded && config.maxChildren > 0 && |list| > config.maxChildren {
        list, ids := list[1..], ids[1..];
      }
      SetList(g.nodes, g.tree, clusters, g.allNodes, node, list, ids);
      g := g.(tree := g.tree[node.path := ids]);
    }

    /** Navigates from the length node to the leaf of a message and creates what is missing on the way. */
    method EnsureLeaf(top: Node, tokens: Tokens, ghost start: Tree) returns (leaf: Node)
      requires Valid() && tokens != [] && g.tree == EnsureWay(start, tokens, 0)
      requires top.path == WayTo(|tokens|, tokens, 0) && top.path in g.nodes && g.nodes[top.path] == top
        && top in g.allNodes
      modifies this`g, g.allNodes`children
      ensures Valid() && forall n :: n in g.allNodes && n !in old(g.allNodes) ==> fresh(n)
      ensures g.contents == old(g.contents) && g.allClusters == old(g.allClusters)
      ensures g.tree == EnsureWay(start, tokens, Levels(config, |tokens|))
      ensures leaf.path == LeafPath(config, tokens) && leaf.path in g.nodes && g.nodes[leaf.path] == leaf
      ensures leaf in g.allNodes
    {
      hide Valid, Linked, Listed, Stored;
      ghost var n, k := |tokens|, Levels(config, |tokens|);
      var currentNode := top;
      var currentDepth := 1;
      while currentDepth < config.maxNodeDepth && currentDepth - 1 < |tokens|
        invariant 1 <= currentDepth <= k + 1
        invariant Valid() && forall n :: n in g.allNodes && n !in old(g.allNodes) ==> fresh(n)
        invariant g.contents == old(g.contents) && g.allClusters == old(g.allClusters)
        invariant currentNode.path == WayTo(n, tokens, currentDepth - 1) && currentNode in g.allNodes
        invariant currentNode.path in g.nodes && g.nodes[currentNode.path] == currentNode
        invariant g.tree == EnsureWay(start, tokens, currentDepth - 1)
        decreases |tokens| - currentDepth
      {
        var token := tokens[currentDepth - 1];
        currentNode := EnsureChild(currentNode, token, currentNode.path);
        currentDepth := currentDepth + 1;
      }
      assert currentDepth - 1 == k;
      leaf := currentNode;
    }

    method EnsureWayToLeaf(tokens: Tokens) returns (leaf: Node)
      requires Valid() && tokens != []
      modifies this`g, g.allNodes`children
      ensures Valid() && forall n :: n in g.allNodes && n !in old(g.allNodes) ==> fresh(n)
      ensures g.contents == old(g.contents) && g.allClusters == old(g.allClusters)
      ensures g.tree == Grow(config, old(g.tree), tokens)
      ensures leaf.path == LeafPath(config, tokens) && leaf.path in g.nodes && g.nodes[leaf.path] == leaf
      ensures leaf in g.allNodes
    {
      ghost var start := g.tree;
      var top := EnsureChild(treeRoot, Itoa(|tokens|), Root);
      leaf := EnsureLeaf(top, tokens, start);
    }

    method AddClusterToTree(cluster: LogCluster, tokens: Tokens)
      requires Valid() && tokens != [] && cluster.clusterID !in clusters
      modifies this`g, this`clusters, g.allNodes
      ensures Valid() && forall n :: n in g.allNodes && n !in old(g.allNodes) ==> fresh(n)
      ensures clusters == old(clusters)[cluster.clusterID := cluster]
      ensures g.contents == old(g.contents)[cluster.clusterID := Cluster(cluster.logTemplate, cluster.size)]
      ensures g.allClusters == old(g.allClusters) + {cluster}
      ensures var leaf, t := LeafPath(config, tokens), Grow(config, old(g.tree), tokens);
        g.tree == t[leaf := Evict(config, t[leaf] + [cluster.clusterID])]
    {
      hide Valid, Linked, Listed, Stored;
      Store(cluster);
      var leaf := EnsureWayToLeaf(tokens);
      Append(leaf, cluster, true);
    }

    // Generalisation

    /** Navigates down the wildcards of a template; every literal gets a node beside them. */
    method EnsureWildLeaf(top: Node, template: Tokens, ghost start: Tree) returns (leaf: Node)
      requires Valid() && template != [] && g.tree == EnsureWild(start, template, 0)
      requires top.path == Wilds(|template|, 0) && top.path in g.nodes && g.nodes[top.path] == top && top in g.allNodes
      modifies this`g, g.allNodes`children
      ensures Valid() && forall n :: n in g.allNodes && n !in old(g.allNodes) ==> fresh(n)
      ensures g.contents == old(g.contents) && g.allClusters == old(g.allClusters)
      ensures g.tree == EnsureWild(start, template, Levels(config, |template|))
      ensures leaf.path == WildLeaf(config, |template|) && leaf.path in g.nodes && g.nodes[leaf.path] == leaf
      ensures leaf in g.allNodes
    {
      hide Valid, Linked, Listed, Stored;
      ghost var n, k := |template|, Levels(config, |template|);
      var currentNode := top;
      var currentDepth := 1;
      while currentDepth < config.maxNodeDepth && currentDepth - 1 < |template|
        invariant 1 <= currentDepth <= k + 1
        invariant Valid() && forall n :: n in g.allNodes && n !in old(g.allNodes) ==> fresh(n)
        invariant g.contents == old(g.contents) && g.allClusters == old(g.allClusters)
        invariant currentNode.path == Wilds(n, currentDepth - 1) && currentNode in g.allNodes
        invariant currentNode.path in g.nodes && g.nodes[currentNode.path] == currentNode
        invariant g.tree == EnsureWild(start, template, currentDepth - 1)
        decreases |template| - currentDepth
      {
        currentNode := EnsureWildChild(currentNode, template[currentDepth - 1]);
        currentDepth := currentDepth + 1;
      }
      assert currentDepth - 1 == k;
      leaf := currentNode;
    }

    /** The wildcard child, and before it the child for a literal key. */
    method EnsureWildChild(node: Node, key: string) returns (child: Node)
      requires Valid() && node.path in g.nodes && g.nodes[node.path] == node
      modifies this`g, node`children
      ensures Valid() && old(g.allNodes) <= g.allNodes
      ensures forall n :: n in g.allNodes && n !in old(g.allNodes) ==> fresh(n)
      ensures g.contents == old(g.contents) && g.allClusters == old(g.allClusters)
      ensures child.path == At(node.path, WILDCARD) && child.path in g.nodes && g.nodes[child.path] == child
      ensures child in g.allNodes
      ensures g.tree == EnsureBeside(old(g.tree), node.path, key)
    {
      hide Valid, Linked, Listed, Stored;
      if key != WILDCARD {
        var literal := EnsureChild(node, key, node.path);
      }
      child := EnsureChild(node, WILDCARD, node.path);
    }

    method EnsureWildWay(template: Tokens) returns (leaf: Node)
      requires Valid() && template != []
      modifies this`g, g.allNodes`children
      ensures Valid() && forall n :: n in g.allNodes && n !in old(g.allNodes) ==> fresh(n)
      ensures g.contents == old(g.contents) && g.allClusters == old(g.allClusters)
      ensures g.tree == GrowWild(config, old(g.tree), template)
      ensures leaf.path == WildLeaf(config, |template|) && leaf.path in g.nodes && g.nodes[leaf.path] == leaf
      ensures leaf in g.allNodes
    {
      ghost var start := g.tree;
      var top := EnsureChild(treeRoot, Itoa(|template|), Root);
      leaf := EnsureWildLeaf(top, template, start);
    }

    method IsListed(node: Node, cluster: LogCluster) returns (found: bool)
      requires Valid() && node.path in g.nodes && g.nodes[node.path] == node
      requires cluster.clusterID in clusters && clusters[cluster.clusterID] == cluster
      ensures found <==> cluster.clusterID in g.tree[node.path]
    {
      found := false;
      ghost var ids := g.tree[node.path];
      for i := 0 to |node.clusters|
        invariant cluster.clusterID !in ids[..i]
      {
        assert node.clusters[i] == clusters[ids[i]] && ids[..i + 1] == ids[..i] + [ids[i]];
        if node.clusters[i] == cluster {
          return true;
        }
      }
      assert ids[..|node.clusters|] == ids;
    }

    method AddWildcardPathForCluster(cluster: LogCluster)
      requires Valid() && cluster.logTemplate != []
      requires cluster.clusterID in clusters && clusters[cluster.clusterID] == cluster
      modifies this`g, g.allNodes
      ensures Valid() && forall n :: n in g.allNodes && n !in old(g.allNodes) ==> fresh(n)
      ensures g.contents == old(g.contents) && g.allClusters == old(g.allClusters)
      ensures g.tree == Reindex(config, old(g.tree), cluster.logTemplate, cluster.clusterID)
    {
      var leaf := EnsureWildWay(cluster.logTemplate);
      var found := IsListed(leaf, cluster);
      if !found {
        Append(leaf, cluster, false);
      }
    }

    /** Generalises a stored cluster; a changed one is indexed again under the wildcard path. */
    method UpdateTemplate(cluster: LogCluster, tokens: Tokens)
      requires Valid() && tokens != []
      requires cluster.clusterID in clusters && clusters[cluster.clusterID] == cluster
      modifies this`g, cluster`logTemplate, g.allNodes
      ensures Valid() && forall n :: n in g.allNodes && n !in old(g.allNodes) ==> fresh(n)
      ensures g.allClusters == old(g.allClusters)
      ensures cluster.logTemplate == MergedTemplate(old(cluster.logTemplate), tokens)
      ensures g.contents == old(g.contents)[cluster.clusterID := Cluster(cluster.logTemplate, cluster.size)]
      ensures g.tree == if cluster.logTemplate == old(cluster.logTemplate) then old(g.tree)
                        else Reindex(config, old(g.tree), cluster.logTemplate, cluster.clusterID)
    {
      hide Linked, Listed, Generalize, Reindex;
      if |cluster.logTemplate| != |tokens| {
        return;
      }
      var changed := GeneralizeTemplate(clusters, g.contents, g.allClusters, cluster, tokens);
      g := g.(contents := g.contents[cluster.clusterID := Cluster(cluster.logTemplate, cluster.size)]);
      if changed {
        AddWildcardPathForCluster(cluster);
      }
    }

    method CreateCluster(tokens: Tokens) returns (cluster: LogCluster)
      modifies this`clusterID
      ensures fresh(cluster) && clusterID == old(clusterID) + 1
      ensures cluster.clusterID == clusterID && cluster.logTemplate == tokens && cluster.size == 1
    {
      clusterID := clusterID + 1;
      cluster := new LogCluster(clusterID, tokens);
    }

    method CountIn(cluster: LogCluster)
      requires Valid() && cluster.clusterID in clusters && clusters[cluster.clusterID] == cluster
      modifies this`g, cluster`size
      ensures Valid() && cluster.size == old(cluster.size) + 1
      ensures g == old(g).(contents := old(g.contents)[cluster.clusterID := Cluster(cluster.logTemplate, cluster.size)])
    {
      CountMessage(clusters, g.contents, g.allClusters, cluster);
      g := g.(contents := g.contents[cluster.clusterID := Cluster(cluster.logTemplate, cluster.size)]);
    }

    /** The cluster found for a message takes it in. */
    method MergeMessage(cluster: LogCluster, tokens: Tokens)
      requires Valid() && tokens != []
      requires cluster.clusterID in clusters && clusters[cluster.clusterID] == cluster
      modifies this`g, cluster, g.allNodes
      ensures Valid() && forall n :: n in g.allNodes && n !in old(g.allNodes) ==> fresh(n)
      ensures g.allClusters == old(g.allClusters)
      ensures clusters.Keys == g.contents.Keys
      ensures old(g.contents[cluster.clusterID]) == Cluster(old(cluster.logTemplate), old(cluster.size))
      ensures cluster.logTemplate == MergedTemplate(old(cluster.logTemplate), tokens)
        && cluster.size == old(cluster.size) + 1
      ensures g.contents == old(g.contents)[cluster.clusterID := Cluster(cluster.logTemplate, cluster.size)]
      ensures g.tree == if cluster.logTemplate == old(cluster.logTemplate) then old(g.tree)
                        else Reindex(config, old(g.tree), cluster.logTemplate, cluster.clusterID)
    {
      ghost var id, before := cluster.clusterID, g.contents;
      CountIn(cluster);
      UpdateTemplate(cluster, tokens);
      UpdateTwice(before, id, Cluster(old(cluster.logTemplate), cluster.size),
        Cluster(cluster.logTemplate, cluster.size));
    }

    method CreateFrom(tokens: Tokens) returns (cluster: LogCluster)
      requires Valid() && tokens != [] && clusterID + 1 !in clusters
      modifies this, g.allNodes
      ensures Valid() && forall n :: n in g.allNodes && n !in old(g.allNodes) ==> fresh(n)
      ensures fresh(cluster) && g.allClusters == old(g.allClusters) + {cluster}
      ensures cluster.clusterID == clusterID && cluster.logTemplate == tokens && cluster.size == 1
      ensures clusterID == old(clusterID) + 1 && clusters == old(clusters)[clusterID := cluster]
      ensures clusters.Keys == g.contents.Keys
      ensures g.contents == old(g.contents)[clusterID := Cluster(tokens, 1)]
      ensures var leaf, t := LeafPath(config, tokens), Grow(config, old(g.tree), tokens);
        g.tree == t[leaf := Evict(config, t[leaf] + [clusterID])]
    {
      cluster := CreateCluster(tokens);
      AddClusterToTree(cluster, tokens);
    }

    method AddToFound(cluster: LogCluster, tokens: Tokens) returns (r: Result)
      requires Valid() && WellFormed(View()) && tokens != []
      requires cluster.clusterID in clusters && clusters[cluster.clusterID] == cluster
      requires Search(config, View(), tokens) == Some(cluster.clusterID)
      modifies this`g, cluster, g.allNodes
      ensures Valid() && forall n :: n in g.allNodes && n !in old(g.allNodes) ==> fresh(n)
      ensures g.allClusters == old(g.allClusters)
      ensures (View(), r) == Add(config, old(View()), tokens)
    {
      hide Valid, Linked, Listed, Stored;
      var oldTemplate := Join(cluster.logTemplate, " ");
      MergeMessage(cluster, tokens);
      var newTemplate := Join(cluster.logTemplate, " ");
      var changeType := if oldTemplate != newTemplate then TemplateChanged else SizeChanged;
      r := Result(changeType, cluster.clusterID, cluster.size, |clusters|, newTemplate);
      assert clusters.Keys == g.contents.Keys;
      AddFoundParts(config, old(View()), cluster.clusterID, tokens, View(), r);
    }

    method AddAsNew(tokens: Tokens) returns (r: Result)
      requires Valid() && WellFormed(View()) && tokens != [] && clusterID + 1 !in clusters
      requires Search(config, View(), tokens).None?
      modifies this, g.allNodes
      ensures Valid() && forall n :: n in g.allNodes && n !in old(g.allNodes) ==> fresh(n)
      ensures forall c :: c in g.allClusters && c !in old(g.allClusters) ==> fresh(c)
      ensures (View(), r) == Add(config, old(View()), tokens)
    {
      hide Valid, Linked, Listed, Stored;
      var newCluster := CreateFrom(tokens);
      r := Result(Created, newCluster.clusterID, newCluster.size, |clusters|, Join(newCluster.logTemplate, " "));
      assert clusters.Keys == g.contents.Keys;
      AddNewParts(config, old(View()), tokens, View(), r);
    }

    /** Training mode: refines Add of module DrainModel on the tokens of the message. */
    method AddLogMessage(logMessage: string) returns (r: Result)
      requires Valid() && Sound(View())
      modifies this, g.allNodes, g.allClusters
      ensures Valid() && Sound(View())
      ensures forall n :: n in g.allNodes && n !in old(g.allNodes) ==> fresh(n)
      ensures forall c :: c in g.allClusters && c !in old(g.allClusters) ==> fresh(c)
      ensures (View(), r) == Add(config, old(View()), Tokenize(config.tokenizer, logMessage))
    {
      var tokens := Tokenize(config.tokenizer, logMessage);
      SoundAfter(config, View(), tokens);
      StoredKeys();
      if tokens == [] {
        return Result(Nothing, 0, 0, |clusters|, "");
      }
      var cluster := TreeSearch(tokens);
      if cluster != null {
        r := AddToFound(cluster, tokens);
      } else {
        r := AddAsNew(tokens);
      }
    }

    /** The template behind the text of an id, or nothing. */
    method GetTemplate(id: string) returns (found: Option<Cluster>)
      requires Valid()
      ensures found == TemplateOf(View(), id)
      ensures found.Some? <==> exists n: nat :: n in View().clusters && ScanInt(id) == Some(n)
      ensures forall n: nat :: n in View().clusters && ScanInt(id) == Some(n) ==> found == Some(View().clusters[n])
    {
      var clusterID := ScanInt(id);
      if clusterID.None? || clusterID.value !in clusters {
        return None;
      }
      var cluster := clusters[clusterID.value];
      return Some(Cluster(cluster.logTemplate, cluster.size));
    }

    /** How deep the subtree of a node goes, counted from the given depth. */
    method CalculateTreeDepth(node: Node, currentDepth: nat, ghost path: Path, ghost bound: nat) returns (maxDepth: nat)
      requires Valid() && path in g.nodes && g.nodes[path] == node && IsWithin(g.tree, path, bound)
      ensures IsHeight(g.tree, path, currentDepth, maxDepth)
      decreases bound, 1
    {
      assert path in g.tree;
      hide Valid, IsHeight, IsHeightOver, IsWithin;
      maxDepth := currentDepth;
      var rest := node.children.Keys;
      NothingBelowYet(g.tree, path, currentDepth);
      while rest != {}
        invariant rest <= node.children.Keys
        invariant IsHeightOver(g.tree, path, node.children.Keys - rest, currentDepth, maxDepth)
        decreases rest
      {
        var key :| key in rest;
        maxDepth := VisitChild(node, key, currentDepth, maxDepth, path, node.children.Keys - rest, bound);
        assert node.children.Keys - rest + {key} == node.children.Keys - (rest - {key});
        rest := rest - {key};
      }
      assert node.children.Keys - {} == node.children.Keys;
      HeightOverAll(path, node.children.Keys, currentDepth, maxDepth);
    }

    method VisitChild(node: Node, key: string, currentDepth: nat, maxDepth: nat, ghost path: Path,
        ghost seen: set<string>, ghost bound: nat)
      returns (deeper: nat)
      requires Valid() && path in g.nodes && g.nodes[path] == node && key in node.children
        && IsWithin(g.tree, path, bound)
      requires IsHeightOver(g.tree, path, seen, currentDepth, maxDepth)
      ensures IsHeightOver(g.tree, path, seen + {key}, currentDepth, deeper)
      decreases bound, 0
    {
      hide Valid, IsHeight, IsHeightOver, IsWithin;
      ChildInTree(path, key);
      ChildIsWithin(g.tree, path, key, bound);
      var depth := CalculateTreeDepth(node.children[key], currentDepth + 1, At(path, key), bound - 1);
      HeightStep(g.tree, path, seen, key, currentDepth, maxDepth, depth);
      deeper := if depth > maxDepth then depth else maxDepth;
    }

    lemma ChildInTree(path: Path, key: string)
      requires Valid() && path in g.nodes && key in g.nodes[path].children
      ensures At(path, key) in g.nodes && g.nodes[path].children[key] == g.nodes[At(path, key)]
        && At(path, key) in g.tree
    {
    }

    lemma HeightOverAll(path: Path, seen: set<string>, base: nat, d: nat)
      requires Valid() && path in g.nodes && seen == g.nodes[path].children.Keys
        && IsHeightOver(g.tree, path, seen, base, d)
      ensures IsHeight(g.tree, path, base, d)
    {
      forall q | q in g.tree && Below(path, q) ensures q == path || BelowSome(path, seen, q) {
        if q != path {
          FirstStep(path, q);
        }
      }
    }

    lemma {:induction false} FirstStep(path: Path, q: Path)
      requires Valid() && path in g.nodes && q in g.tree && Below(path, q) && q != path
      ensures BelowSome(path, g.nodes[path].children.Keys, q)
      decreases q
    {
      assert q in g.nodes && q.parent in g.nodes && q.parent in g.tree;
      if q.parent == path {
        assert q.key in g.nodes[path].children && Below(At(path, q.key), q);
      } else {
        FirstStep(path, q.parent);
        var k :| k in g.nodes[path].children && Below(At(path, k), q.parent);
        assert Below(At(path, k), q);
      }
    }

    /** Cluster count, the sum of all sizes over the map in any order, and the depth of the tree. */
    method Stats() returns (clusterCount: nat, totalMessages: nat, treeDepth: nat)
      requires Valid() && Sound(View())
      ensures clusterCount == |View().clusters|
      ensures totalMessages == Total(View().clusters, View().clusterID, SizeOf)
      ensures (forall p :: p in View().tree ==> Depth(p) <= treeDepth)
        && exists p :: p in View().tree && Depth(p) == treeDepth
    {
      clusterCount, totalMessages := CountMessages();
      ghost var bound := DepthBound(g.tree.Keys);
      treeDepth := CalculateTreeDepth(treeRoot, 0, Root, bound);
      forall p | p in g.tree ensures Below(Root, p) {
        BelowRoot(p);
      }
    }

    method CountMessages() returns (clusterCount: nat, totalMessages: nat)
      requires Valid() && Sound(View())
      ensures clusterCount == |View().clusters|
      ensures totalMessages == Total(View().clusters, View().clusterID, SizeOf)
    {
      totalMessages := 0;
      var rest := clusters;
      ghost var left := g.contents;
      while rest != map[]
        invariant rest.Keys == left.Keys <= clusters.Keys
        invariant forall id :: id in rest ==> rest[id] == clusters[id] && left[id] == g.contents[id]
        invariant totalMessages + Total(left, clusterID, SizeOf) == Total(g.contents, clusterID, SizeOf)
        decreases rest.Keys
      {
        var id :| id in rest;
        TotalWithout(left, clusterID, SizeOf, id);
        totalMessages := totalMessages + rest[id].size;
        rest, left := rest - {id}, left - {id};
      }
      TotalOfNone(clusterID, SizeOf);
      assert left == map[];
      assert clusters.Keys == g.contents.Keys;
      clusterCount := |clusters|;
    }

    /** All clusters, in any order. */
    method GetClusters() returns (all: seq<LogCluster>)
      requires Valid()
      ensures |all| == |clusters| && Objects(clusters, all)
      ensures forall id :: id in clusters ==> clusters[id] in all
      ensures Choice(View().clusters, IdsOf(all)) && forall id :: id in View().clusters ==> id in IdsOf(all)
    {
      all := [];
      var rest := clusters;
      while rest != map[]
        invariant rest.Keys <= clusters.Keys && |all| + |rest| == |clusters| && Objects(clusters, all)
        invariant forall id :: id in rest ==> rest[id] == clusters[id] && clusters[id] !in all
        invariant forall id :: id in clusters ==> id in rest || clusters[id] in all
        decreases |rest|
      {
        var id :| id in rest;
        var cluster := rest[id];
        assert cluster.clusterID == id;
        all := all + [cluster];
        rest := rest - {id};
      }
      IdsOfAll(clusters, g.contents, all);
    }

    /** The largest clusters, largest first; a limit above 0 cuts the list. */
    method GetTopClusters(limit: int) returns (top: seq<LogCluster>)
      requires Valid()
      ensures |top| == if limit > 0 && |clusters| > limit then limit else |clusters|
      ensures Objects(clusters, top) && Largest(View().clusters, IdsOf(top))
      ensures limit <= 0 ==> forall id :: id in View().clusters ==> id in IdsOf(top)
    {
      hide Linked, Listed, Choice, Largest, Objects, BySize;
      var all := GetClusters();
      top := SortBySize(all);
      SortedAll(clusters, g.contents, all, top);
      if limit > 0 && |top| > limit {
        FirstOfTop(clusters, g.contents, top, limit);
        top := top[..limit];
      }
    }

    /** Inference mode: the search without the update. */
    method Match(logMessage: string) returns (found: Option<(nat, Tokens, real, seq<string>)>)
      requires Valid() && Sound(View())
      ensures var tokens := Tokenize(config.tokenizer, logMessage);
        found == if tokens == [] || Search(config, View(), tokens).None? then None
                 else
                   var id := Search(config, View(), tokens).value;
                   var t := View().clusters[id].template;
                   Some((id, t, Similarity(t, tokens), Parameters(t, tokens)))
    {
      var tokens := Tokenize(config.tokenizer, logMessage);
      if tokens == [] {
        return None;
      }
      var cluster := TreeSearch(tokens);
      if cluster == null {
        return None;
      }
      var similarity := CalculateSimilarity(cluster.logTemplate, tokens);
      FoundIsSimilar(config, View(), tokens);
      if similarity < config.simThreshold {
        return None;
      }
      return Some((cluster.clusterID, cluster.logTemplate, similarity, Parameters(cluster.logTemplate, tokens)));
    }
  }

  /** Different stored clusters. */
  ghost predicate Objects(clusters: map<nat, LogCluster>, cs: seq<LogCluster>) {
    && (forall i :: 0 <= i < |cs| ==> cs[i].clusterID in clusters && clusters[cs[i].clusterID] == cs[i])
    && DistinctObjects(cs)
  }

  ghost function IdsOf(cs: seq<LogCluster>): seq<nat> {
    seq(|cs|, i requires 0 <= i < |cs| => cs[i].clusterID)
  }

  ghost predicate BySize(cs: seq<LogCluster>)
    reads cs
  {
    forall i, j :: 0 <= i < j < |cs| ==> cs[i].size >= cs[j].size
  }

  ghost predicate DistinctObjects(cs: seq<LogCluster>) {
    forall i, j :: 0 <= i < j < |cs| ==> cs[i] != cs[j]
  }

  method InsertBySize(sorted: seq<LogCluster>, c: LogCluster) returns (r: seq<LogCluster>)
    requires BySize(sorted)
    ensures multiset(r) == multiset(sorted) + multiset{c} && BySize(r)
  {
    var p := 0;
    while p < |sorted| && sorted[p].size >= c.size
      invariant p <= |sorted| && forall q :: 0 <= q < p ==> sorted[q].size >= c.size
    {
      p := p + 1;
    }
    r := sorted[..p] + [c] + sorted[p..];
    assert sorted == sorted[..p] + sorted[p..];
    InsertedInOrder(sorted, c, p);
  }

  lemma InsertedInOrder(sorted: seq<LogCluster>, c: LogCluster, p: nat)
    requires BySize(sorted) && p <= |sorted| && (forall q :: 0 <= q < p ==> sorted[q].size >= c.size)
    requires p < |sorted| ==> c.size >= sorted[p].size
    ensures BySize(sorted[..p] + [c] + sorted[p..])
  {
  }

  /** The standard library's sort with the size comparison, as insertion of one cluster after the other. */
  method SortBySize(cs: seq<LogCluster>) returns (sorted: seq<LogCluster>)
    ensures multiset(sorted) == multiset(cs) && BySize(sorted)
  {
    sorted := [];
    for i := 0 to |cs|
      invariant multiset(sorted) == multiset(cs[..i]) && BySize(sorted)
    {
      assert cs[..i + 1] == cs[..i] + [cs[i]];
      sorted := InsertBySize(sorted, cs[i]);
    }
    assert cs[..|cs|] == cs;
  }

  lemma {:induction false} SingleWhenDistinct(cs: seq<LogCluster>, c: LogCluster)
    requires DistinctObjects(cs)
    ensures multiset(cs)[c] <= 1
  {
    if cs != [] {
      var n := |cs| - 1;
      SingleWhenDistinct(cs[..n], c);
      assert cs == cs[..n] + [cs[n]];
      assert multiset(cs[..n])[cs[n]] == 0 by {
        assert cs[n] !in cs[..n];
      }
    }
  }

  lemma DistinctWhenSingle(cs: seq<LogCluster>)
    requires forall c :: multiset(cs)[c] <= 1
    ensures DistinctObjects(cs)
  {
    forall i, j | 0 <= i < j < |cs| ensures cs[i] != cs[j] {
      assert cs == cs[..j] + [cs[j]] + cs[j + 1..];
      assert multiset(cs)[cs[j]] >= multiset(cs[..j])[cs[j]] + 1;
      assert cs[..j][i] == cs[i] && cs[i] in multiset(cs[..j]);
    }
  }

  lemma SortKeepsDistinct(cs: seq<LogCluster>, sorted: seq<LogCluster>)
    requires DistinctObjects(cs) && multiset(sorted) == multiset(cs)
    ensures DistinctObjects(sorted)
  {
    forall c: LogCluster ensures multiset(sorted)[c] <= 1 {
      SingleWhenDistinct(cs, c);
    }
    DistinctWhenSingle(sorted);
  }

  /** A sorted permutation of all clusters ranks all ids. */
  lemma SortedAll(clusters: map<nat, LogCluster>, contents: Clusters, all: seq<LogCluster>, top: seq<LogCluster>)
    requires Objects(clusters, all) && multiset(top) == multiset(all) && BySize(top)
    requires forall id :: id in clusters ==> clusters[id] in all
    requires clusters.Keys == contents.Keys
      && forall id :: id in clusters ==> clusters[id].clusterID == id && contents[id].size == clusters[id].size
    ensures |top| == |all| && Objects(clusters, top) && Largest(contents, IdsOf(top))
    ensures forall id :: id in contents ==> id in IdsOf(top)
  {
    assert |multiset(top)| == |multiset(all)|;
    SortKeepsDistinct(all, top);
    forall i | 0 <= i < |top| ensures top[i] in all {
      assert top[i] in multiset(top);
    }
    forall id | id in clusters ensures clusters[id] in top {
      assert clusters[id] in multiset(all);
    }
    IdsOfAll(clusters, contents, top);
  }

  lemma FirstOfTop(clusters: map<nat, LogCluster>, contents: Clusters, top: seq<LogCluster>, limit: nat)
    requires Objects(clusters, top) && Largest(contents, IdsOf(top)) && limit <= |top|
    ensures Objects(clusters, top[..limit]) && Largest(contents, IdsOf(top[..limit]))
  {
    LargestPrefix(contents, IdsOf(top), limit);
    assert IdsOf(top[..limit]) == IdsOf(top)[..limit];
  }

  lemma IdsOfAll(clusters: map<nat, LogCluster>, contents: Clusters, all: seq<LogCluster>)
    requires Objects(clusters, all) && forall id :: id in clusters ==> clusters[id] in all
    requires clusters.Keys == contents.Keys && forall id :: id in clusters ==> clusters[id].clusterID == id
    ensures Choice(contents, IdsOf(all)) && forall id :: id in contents ==> id in IdsOf(all)
  {
    forall id | id in contents ensures id in IdsOf(all) {
      var i :| 0 <= i < |all| && all[i] == clusters[id];
      assert IdsOf(all)[i] == id;
    }
  }

  lemma FoundIsSimilar(cfg: Config, s: State, tokens: Tokens)
    requires tokens != [] && WellFormed(s) && Search(cfg, s, tokens).Some?
    ensures Similarity(s.clusters[Search(cfg, s, tokens).value].template, tokens) >= cfg.simThreshold
  {
    BestIsFirstMaximum(cfg.simThreshold, s.clusters, s.tree[SearchLeaf(cfg, s, tokens).value], tokens);
  }

  // Depth of the tree

  /** The node at q is in the subtree of the one at p. */
  predicate Below(p: Path, q: Path) { p == q || (q.At? && Below(p, q.parent)) }

  ghost predicate BelowSome(p: Path, keys: set<string>, q: Path) { exists k :: k in keys && Below(At(p, k), q) }

  lemma {:induction false} BelowRoot(p: Path)
    ensures Below(Root, p)
  {
    if p.At? {
      BelowRoot(p.parent);
    }
  }

  lemma {:induction false} BelowChild(p: Path, k: string, q: Path)
    requires Below(At(p, k), q)
    ensures Below(p, q)
  {
    if q != At(p, k) {
      BelowChild(p, k, q.parent);
    } else {
      assert Below(p, q.parent);
    }
  }

  /** The greatest depth in the subtree of p, when p itself is counted as base. */
  ghost predicate IsHeight(tree: Tree, p: Path, base: nat, d: nat) {
    && (forall q :: q in tree && Below(p, q) ==> base + Depth(q) <= d + Depth(p))
    && exists q :: q in tree && Below(p, q) && base + Depth(q) == d + Depth(p)
  }

  /** The same over p and the subtrees of some of its children. */
  ghost predicate IsHeightOver(tree: Tree, p: Path, keys: set<string>, base: nat, d: nat) {
    && base <= d
    && (forall q :: q in tree && BelowSome(p, keys, q) ==> base + Depth(q) <= d + Depth(p))
    && exists q :: q in tree && Below(p, q) && base + Depth(q) == d + Depth(p)
  }

  /** No path is longer than that of p by more than the bound. */
  ghost predicate IsWithin(tree: Tree, p: Path, bound: nat) { forall q :: q in tree ==> Depth(q) <= Depth(p) + bound }

  lemma ChildIsWithin(tree: Tree, p: Path, k: string, bound: nat)
    requires At(p, k) in tree && IsWithin(tree, p, bound)
    ensures bound > 0 && IsWithin(tree, At(p, k), bound - 1)
  {
  }

  lemma NothingBelowYet(tree: Tree, p: Path, base: nat)
    requires p in tree
    ensures IsHeightOver(tree, p, {}, base, base)
  {
    assert Below(p, p);
  }

  lemma HeightStep(tree: Tree, p: Path, keys: set<string>, k: string, base: nat, d: nat, depth: nat)
    requires IsHeightOver(tree, p, keys, base, d) && IsHeight(tree, At(p, k), base + 1, depth)
    ensures IsHeightOver(tree, p, keys + {k}, base, if depth > d then depth else d)
  {
    var deepest :| deepest in tree && Below(At(p, k), deepest) && base + 1 + Depth(deepest) == depth + Depth(p) + 1;
    BelowChild(p, k, deepest);
    forall q | q in tree && BelowSome(p, keys + {k}, q)
      ensures base + Depth(q) <= (if depth > d then depth else d) + Depth(p)
    {
      var l :| l in keys + {k} && Below(At(p, l), q);
      if l in keys {
        assert BelowSome(p, keys, q);
      }
    }
  }

  lemma {:induction false} DepthBound(paths: set<Path>) returns (bound: nat)
    ensures forall p :: p in paths ==> Depth(p) <= bound
  {
    bound := 0;
    if paths != {} {
      var p :| p in paths;
      bound := DepthBound(paths - {p});
      if Depth(p) > bound {
        bound := Depth(p);
      }
    }
  }

  /** The tokens at the holes of a template of the same length. */
  function Parameters(template: Tokens, tokens: Tokens): seq<string> {
    if |template| != |tokens| || template == [] then []
    else
      var n := |template| - 1;
      Parameters(template[..n], tokens[..n]) + (if IsHole(template[n]) then [tokens[n]] else [])
  }

  ghost function Holes(template: Tokens): set<nat> { set i: nat | i < |template| && IsHole(template[i]) }

  lemma HolesStep(template: Tokens)
    requires template != []
    ensures var n := |template| - 1;
      Holes(template) == if IsHole(template[n]) then Holes(template[..n]) + {n} else Holes(template[..n])
  {
  }

  /** The tokens of the message at the holes of the template, in order; none when the lengths differ. */
  lemma {:induction false} ParametersAreAtHoles(template: Tokens, tokens: Tokens)
    ensures |template| == |tokens| ==> Keeps(tokens, Holes(template), Parameters(template, tokens))
    ensures |template| != |tokens| ==> Parameters(template, tokens) == []
  {
    hide Keeps, IsHole;
    if template == [] {
      assert Holes([]) == {};
      KeepsNothing<string>();
    } else if |template| == |tokens| {
      var n := |template| - 1;
      ParametersAreAtHoles(template[..n], tokens[..n]);
      HolesStep(template);
      KeepsStep(tokens[..n], Holes(template[..n]), Parameters(template[..n], tokens[..n]), tokens[n],
        IsHole(template[n]));
      assert tokens[..n] + [tokens[n]] == tokens;
    }
  }
}
