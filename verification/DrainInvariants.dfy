/** What every run of Drain3 keeps: templates, ids, and the shape of the prefix tree. */
module DrainInvariants {
  import opened Text
  import opened Tokenizer
  import opened DrainModel

  /** The messages assigned to each cluster, in order of arrival. */
  type History = map<nat, seq<Tokens>>

  function Record(h: History, r: Result, tokens: Tokens): History {
    match r.changeType
    case Nothing => h
    case Created => h[r.clusterID := [tokens]]
    case _ => if r.clusterID in h then h[r.clusterID := h[r.clusterID] + [tokens]] else h
  }

  // Least general generalisation

  ghost predicate Aligned(ms: seq<Tokens>) {
    && ms != []
    && ms[0] != []
    && forall k :: 0 <= k < |ms| ==> |ms[k]| == |ms[0]| && AllWords(ms[k])
  }

  ghost predicate Unanimous(ms: seq<Tokens>, i: nat)
    requires Aligned(ms) && i < |ms[0]|
  {
    forall k :: 0 <= k < |ms| ==> ms[k][i] == ms[0][i]
  }

  /** The token on which all messages agree, and the wildcard where they do not. */
  ghost function Lgg(ms: seq<Tokens>): (t: Tokens)
    requires Aligned(ms)
    ensures |t| == |ms[0]|
  {
    seq(|ms[0]|, i requires 0 <= i < |ms[0]| => if Unanimous(ms, i) then ms[0][i] else WILDCARD)
  }

  /** One more message: generalising the template is the least generalisation of the longer list. */
  lemma LggStep(ms: seq<Tokens>, m: Tokens)
    requires Aligned(ms) && |m| == |ms[0]| && AllWords(m)
    ensures Aligned(ms + [m])
    ensures Lgg(ms + [m]) == Generalize(Lgg(ms), m)
  {
    var all := ms + [m];
    forall i | 0 <= i < |m| ensures Lgg(all)[i] == Generalize(Lgg(ms), m)[i] {
      assert Unanimous(all, i) <==> Unanimous(ms, i) && m[i] == ms[0][i] by {
        assert all[|ms|] == m;
        assert forall k :: 0 <= k < |ms| ==> all[k] == ms[k];
      }
    }
  }

  lemma LggCovers(ms: seq<Tokens>, k: nat)
    requires Aligned(ms) && k < |ms|
    ensures Covers(Lgg(ms), ms[k])
  {
  }

  /** The template depends on which messages were assigned, not on their order or multiplicity. */
  lemma LggOrderIndependent(ms: seq<Tokens>, ns: seq<Tokens>)
    requires Aligned(ms) && Aligned(ns)
    requires forall m :: m in ms <==> m in ns
    ensures Lgg(ms) == Lgg(ns)
  {
    assert ms[0] in ns && ns[0] in ms;
    forall i | 0 <= i < |ms[0]| ensures Lgg(ms)[i] == Lgg(ns)[i] {
      if Unanimous(ms, i) {
        UnanimousTransfers(ms, ns, i);
      } else if Unanimous(ns, i) {
        UnanimousTransfers(ns, ms, i);
      }
    }
  }

  lemma UnanimousTransfers(ms: seq<Tokens>, ns: seq<Tokens>, i: nat)
    requires Aligned(ms) && Aligned(ns) && i < |ms[0]| == |ns[0]| && Unanimous(ms, i)
    requires forall m :: m in ns ==> m in ms
    ensures Unanimous(ns, i) && ns[0][i] == ms[0][i]
  {
    forall k | 0 <= k < |ns| ensures ns[k][i] == ms[0][i] {
      assert ns[k] in ms;
    }
  }

  // The invariant

  ghost predicate Ids(s: State, h: History) {
    && (forall id :: id in s.clusters <==> 1 <= id <= s.clusterID)
    && (forall id :: id in h <==> 1 <= id <= s.clusterID)
  }

  /** A cluster's template is the least generalisation of its messages; its size counts them. */
  ghost predicate Faithful(s: State, h: History) {
    forall id :: id in s.clusters ==> id in h && Aligned(h[id]) && s.clusters[id] == Cluster(Lgg(h[id]), |h[id]|)
  }

  /** The root exists, and so does the parent of every node. */
  ghost predicate Closed(tree: Tree) {
    Root in tree && forall p, k :: At(p, k) in tree ==> p in tree
  }

  /** Every literal of the template has a node beside the wildcard path. */
  ghost predicate Shadowed(cfg: Config, tree: Tree, template: Tokens) {
    forall i :: 0 <= i < Levels(cfg, |template|) ==>
      template[i] == WILDCARD || At(Wilds(|template|, i), template[i]) in tree
  }

  /** A cluster is listed on the path of its first message or on the all-wildcard path. */
  ghost predicate ListedAt(cfg: Config, s: State, h: History, p: Path, id: nat)
    requires Faithful(s, h)
  {
    && id in s.clusters
    && (p == LeafPath(cfg, h[id][0])
        || (p == WildLeaf(cfg, |h[id][0]|) && Shadowed(cfg, s.tree, s.clusters[id].template)))
  }

  /** A node below the length level that only wildcards lead to. */
  ghost predicate AllWild(p: Path) {
    p.At? && p.parent.At? && p.key == WILDCARD && (p.parent.parent.Root? || AllWild(p.parent))
  }

  lemma {:induction false} WildsAreAllWild(n: nat, k: nat)
    ensures AllWild(Wilds(n, k)) <==> k > 0
  {
    if k > 1 {
      WildsAreAllWild(n, k - 1);
    }
  }

  /** The way of a message consists of wildcards only if the message starts with as many. */
  lemma {:induction false} AllWildWay(n: nat, keys: seq<string>, k: nat)
    requires k <= |keys| && AllWild(WayTo(n, keys, k))
    ensures k > 0 && forall i :: 0 <= i < k ==> keys[i] == WILDCARD
  {
    if k > 1 {
      AllWildWay(n, keys, k - 1);
    }
  }

  ghost predicate Bounded(cfg: Config, p: Path, ids: seq<nat>) {
    cfg.maxChildren > 0 && !AllWild(p) ==> |ids| <= cfg.maxChildren
  }

  ghost predicate Listings(cfg: Config, s: State, h: History)
    requires Faithful(s, h)
  {
    && (forall p, id :: p in s.tree && id in s.tree[p] ==> ListedAt(cfg, s, h, p, id))
    && (forall p :: p in s.tree ==> Distinct(s.tree[p]) && Bounded(cfg, p, s.tree[p]))
  }

  /** The message does not start with literal wildcards all the way down to its leaf. */
  ghost predicate HasLiteral(cfg: Config, m: Tokens) {
    var k := Levels(cfg, |m|);
    k == 0 || exists i :: 0 <= i < k && m[i] != WILDCARD
  }

  /** Leaves have no limit, or every message ever assigned has a literal on its way. */
  ghost predicate Plain(cfg: Config, h: History) {
    cfg.maxChildren <= 0 || forall id, k :: id in h && 0 <= k < |h[id]| ==> HasLiteral(cfg, h[id][k])
  }

  /** A cluster whose template was generalised stays on the wildcard leaf. */
  ghost predicate Attached(cfg: Config, s: State, h: History)
    requires Faithful(s, h)
  {
    Plain(cfg, h) ==> forall id :: id in s.clusters && s.clusters[id].template != h[id][0] ==>
      var n := |h[id][0]|;
      Levels(cfg, n) == 0 || (WildLeaf(cfg, n) in s.tree && id in s.tree[WildLeaf(cfg, n)])
  }

  ghost predicate Inv(cfg: Config, s: State, h: History) {
    Ids(s, h) && Faithful(s, h) && Closed(s.tree) && Listings(cfg, s, h) && Attached(cfg, s, h)
  }

  lemma InvIsWellFormed(cfg: Config, s: State, h: History)
    requires Inv(cfg, s, h)
    ensures WellFormed(s)
  {
    forall p, i | p in s.tree && 0 <= i < |s.tree[p]| ensures s.tree[p][i] in s.clusters {
      assert ListedAt(cfg, s, h, p, s.tree[p][i]);
    }
  }

  lemma InitialInv(cfg: Config)
    ensures Inv(cfg, INITIAL, map[])
  {
  }

  // One step

  function ListOf(tree: Tree, p: Path): seq<nat> {
    if p in tree then tree[p] else []
  }

  /** Nodes are only added, and only the list at `leaf` changes. */
  ghost predicate Grown(before: Tree, after: Tree, leaf: Path) {
    && leaf in after
    && (forall p :: p in before ==> p in after)
    && (forall p :: p in after && p != leaf ==> after[p] == ListOf(before, p))
  }

  /** The step touched cluster `id` only, and recorded its message there. */
  ghost predicate Touches(s: State, h: History, s': State, h': History, id: nat)
    requires Faithful(s, h) && Faithful(s', h')
  {
    && (forall c :: c in s'.clusters ==>
       c == id || (c in s.clusters && s'.clusters[c] == s.clusters[c] && h'[c] == h[c]))
    && (forall c :: c in s.clusters ==> c in s'.clusters)
    && (id in s.clusters ==> h[id] <= h'[id])
  }

  lemma ListingsAfterStep(cfg: Config, s: State, h: History, s': State, h': History, leaf: Path, id: nat)
    requires Faithful(s, h) && Faithful(s', h') && Listings(cfg, s, h)
    requires Grown(s.tree, s'.tree, leaf) && Touches(s, h, s', h', id)
    requires id in s'.tree[leaf] ==> ListedAt(cfg, s', h', leaf, id)
    requires forall p :: p in s.tree && id in s.tree[p] ==> ListedAt(cfg, s', h', p, id)
    requires forall c :: c in s'.tree[leaf] ==> c == id || c in ListOf(s.tree, leaf)
    requires Distinct(s'.tree[leaf]) && Bounded(cfg, leaf, s'.tree[leaf])
    ensures Listings(cfg, s', h')
  {
  }

  lemma PlainEarlier(cfg: Config, s: State, h: History, s': State, h': History, id: nat)
    requires Faithful(s, h) && Faithful(s', h') && Touches(s, h, s', h', id) && Plain(cfg, h')
    requires forall c :: c in h ==> c in s.clusters
    ensures Plain(cfg, h)
  {
  }

  lemma AttachedAfterStep(cfg: Config, s: State, h: History, s': State, h': History, leaf: Path, id: nat)
    requires Faithful(s, h) && Faithful(s', h') && Attached(cfg, s, h)
    requires forall c :: c in h ==> c in s.clusters
    requires Grown(s.tree, s'.tree, leaf) && Touches(s, h, s', h', id)
    requires Plain(cfg, h') && AllWild(leaf) ==> forall c :: c in ListOf(s.tree, leaf) ==> c in s'.tree[leaf]
    requires id in s'.clusters
    requires s'.clusters[id].template == h'[id][0]
      || (id in s.clusters && s'.clusters[id].template == s.clusters[id].template)
      || id in ListOf(s'.tree, WildLeaf(cfg, |h'[id][0]|))
    ensures Attached(cfg, s', h')
  {
    if Plain(cfg, h') {
      PlainEarlier(cfg, s, h, s', h', id);
      forall c | c in s'.clusters && s'.clusters[c].template != h'[c][0]
        ensures var n := |h'[c][0]|;
          Levels(cfg, n) == 0 || (WildLeaf(cfg, n) in s'.tree && c in s'.tree[WildLeaf(cfg, n)])
      {
        var n := |h'[c][0]|;
        WildsAreAllWild(n, Levels(cfg, n));
      }
    }
  }

  // Creation

  lemma {:induction false} WayKeepsClosed(tree: Tree, tokens: Tokens, k: nat)
    requires k <= |tokens| && Closed(tree)
    ensures Closed(EnsureWay(tree, tokens, k))
  {
    if k > 0 {
      WayKeepsClosed(tree, tokens, k - 1);
    }
  }

  lemma CreateEffect(cfg: Config, s: State, tokens: Tokens)
    requires Closed(s.tree) && tokens != []
    ensures CreateStep(cfg, s, Create(cfg, s, tokens), tokens)
  {
    EnsureWayNodes(s.tree, tokens, Levels(cfg, |tokens|));
    WayKeepsClosed(s.tree, tokens, Levels(cfg, |tokens|));
  }

  /** What creation does: nodes on the path of the message, and the new id at the end of the leaf's list. */
  ghost predicate CreateStep(cfg: Config, s: State, s': State, tokens: Tokens) {
    var leaf := LeafPath(cfg, tokens);
    && s'.clusterID == s.clusterID + 1
    && s'.clusters == s.clusters[s'.clusterID := Cluster(tokens, 1)]
    && Closed(s'.tree)
    && Grown(s.tree, s'.tree, leaf)
    && s'.tree[leaf] == Evict(cfg, ListOf(s.tree, leaf) + [s'.clusterID])
  }

  lemma CreateKeepsFaithful(cfg: Config, s: State, h: History, s': State, tokens: Tokens)
    requires Ids(s, h) && Faithful(s, h) && tokens != [] && AllWords(tokens) && CreateStep(cfg, s, s', tokens)
    ensures var h' := h[s'.clusterID := [tokens]];
      Ids(s', h') && Faithful(s', h') && Touches(s, h, s', h', s'.clusterID)
  {
  }

  lemma CreateKeepsListings(cfg: Config, s: State, h: History, s': State, h': History, tokens: Tokens)
    requires Inv(cfg, s, h) && tokens != [] && CreateStep(cfg, s, s', tokens)
    requires h' == h[s'.clusterID := [tokens]] && Faithful(s', h') && Touches(s, h, s', h', s'.clusterID)
    ensures Listings(cfg, s', h')
  {
    hide Attached, Lgg, Evict;
    var id, leaf := s'.clusterID, LeafPath(cfg, tokens);
    var was := ListOf(s.tree, leaf);
    assert forall c :: c in was ==> ListedAt(cfg, s, h, leaf, c);
    assert forall p :: p in s.tree && id in s.tree[p] ==> ListedAt(cfg, s, h, p, id);
    EvictKeeps(cfg, leaf, was, id);
    assert h'[id][0] == tokens;
    hide LeafPath, Shadowed;
    ListingsAfterStep(cfg, s, h, s', h', leaf, id);
  }

  /** The list after an append and a possible eviction: the newest clusters, as many as may stay. */
  lemma EvictKeeps(cfg: Config, leaf: Path, was: seq<nat>, id: nat)
    requires Distinct(was) && Bounded(cfg, leaf, was) && id !in was
    ensures var kept := Evict(cfg, was + [id]);
      && Distinct(kept) && Bounded(cfg, leaf, kept)
      && kept == (was + [id])[|was| + 1 - |kept|..] && |kept| >= |was|
      && (|kept| == |was| <==> 0 < cfg.maxChildren <= |was|)
      && |kept| >= 1 && kept[|kept| - 1] == id
  {
  }

  lemma CreateKeepsAttached(cfg: Config, s: State, h: History, s': State, h': History, tokens: Tokens)
    requires Ids(s, h) && Faithful(s, h) && Attached(cfg, s, h) && tokens != [] && CreateStep(cfg, s, s', tokens)
    requires h' == h[s'.clusterID := [tokens]] && Faithful(s', h') && Touches(s, h, s', h', s'.clusterID)
    ensures Attached(cfg, s', h')
  {
    var leaf := LeafPath(cfg, tokens);
    assert h'[s'.clusterID][0] == tokens;
    if Plain(cfg, h') && AllWild(leaf) && cfg.maxChildren > 0 {
      assert HasLiteral(cfg, tokens);
      AllWildWay(|tokens|, tokens, Levels(cfg, |tokens|));
    }
    AttachedAfterStep(cfg, s, h, s', h', leaf, s'.clusterID);
  }

  lemma CreateKeepsInv(cfg: Config, s: State, h: History, s': State, tokens: Tokens)
    requires Inv(cfg, s, h) && tokens != [] && AllWords(tokens) && CreateStep(cfg, s, s', tokens)
    ensures Inv(cfg, s', h[s'.clusterID := [tokens]])
  {
    var h' := h[s'.clusterID := [tokens]];
    CreateKeepsFaithful(cfg, s, h, s', tokens);
    CreateKeepsListings(cfg, s, h, s', h', tokens);
    CreateKeepsAttached(cfg, s, h, s', h', tokens);
  }

  // Merging

  lemma {:induction false} ReindexKeepsClosed(tree: Tree, template: Tokens, k: nat)
    requires k <= |template| && Closed(tree)
    ensures Closed(EnsureWild(tree, template, k))
  {
    if k > 0 {
      ReindexKeepsClosed(tree, template, k - 1);
    }
  }

  /** What re-indexing does: empty nodes, each literal shadowed, the cluster on the wildcard leaf. */
  lemma ReindexEffect(cfg: Config, tree: Tree, template: Tokens, id: nat)
    requires Closed(tree) && template != []
    ensures var t, leaf := Reindex(cfg, tree, template, id), WildLeaf(cfg, |template|);
      && Closed(t)
      && Shadowed(cfg, t, template)
      && Grown(tree, t, leaf)
      && t[leaf] == if id in ListOf(tree, leaf) then ListOf(tree, leaf) else ListOf(tree, leaf) + [id]
  {
    var n, k := |template|, Levels(cfg, |template|);
    var t := EnsureWild(tree, template, k);
    ReindexKeepsClosed(tree, template, k);
    EnsureWildNodes(tree, template, k);
    forall i | 0 <= i < k && template[i] != WILDCARD ensures At(Wilds(n, i), template[i]) in t {
      assert WildNode(template, At(Wilds(n, i), template[i]), i);
    }
  }

  /** What merging does: the template generalised, and when it changed, listed on the wildcard leaf. */
  ghost predicate MergeStep(cfg: Config, s: State, s': State, id: nat, leaf: Path, tokens: Tokens) {
    && id in s.clusters && |s.clusters[id].template| == |tokens|
    && var t, t' := s.clusters[id].template, Generalize(s.clusters[id].template, tokens);
       && s'.clusterID == s.clusterID
       && s'.clusters == s.clusters[id := Cluster(t', s.clusters[id].size + 1)]
       && Closed(s'.tree)
       && Grown(s.tree, s'.tree, leaf)
       && s'.tree[leaf] == (if id in ListOf(s.tree, leaf) then ListOf(s.tree, leaf) else ListOf(s.tree, leaf) + [id])
       && (id !in ListOf(s.tree, leaf) ==> AllWild(leaf))
       && (t' == t ==> id in ListOf(s.tree, leaf))
       && (t' != t ==> leaf == WildLeaf(cfg, |t'|) && Shadowed(cfg, s'.tree, t'))
  }

  lemma MergeEffect(cfg: Config, s: State, id: nat, tokens: Tokens) returns (leaf: Path)
    requires Closed(s.tree) && id in s.clusters && |s.clusters[id].template| == |tokens| && tokens != []
    requires SearchLeaf(cfg, s, tokens).Some? && id in s.tree[SearchLeaf(cfg, s, tokens).value]
    ensures MergeStep(cfg, s, Merge(cfg, s, id, tokens), id, leaf, tokens)
  {
    var t' := Generalize(s.clusters[id].template, tokens);
    leaf := SearchLeaf(cfg, s, tokens).value;
    if t' != s.clusters[id].template {
      ReindexEffect(cfg, s.tree, t', id);
      WildsAreAllWild(|t'|, Levels(cfg, |t'|));
      assert Levels(cfg, |t'|) == 0 ==> leaf == WildLeaf(cfg, |t'|);
      leaf := WildLeaf(cfg, |t'|);
    }
  }

  lemma MergeKeepsFaithful(cfg: Config, s: State, h: History, s': State, leaf: Path, tokens: Tokens, id: nat)
    requires Ids(s, h) && Faithful(s, h) && AllWords(tokens) && MergeStep(cfg, s, s', id, leaf, tokens)
    ensures var h' := h[id := h[id] + [tokens]];
      Ids(s', h') && Faithful(s', h') && Touches(s, h, s', h', id) && h'[id][0] == h[id][0]
  {
    LggStep(h[id], tokens);
  }

  lemma MergeKeepsListings(cfg: Config, s: State, h: History, s': State, h': History, leaf: Path, tokens: Tokens,
      id: nat)
    requires Inv(cfg, s, h) && MergeStep(cfg, s, s', id, leaf, tokens)
    requires h' == h[id := h[id] + [tokens]] && Faithful(s', h') && Touches(s, h, s', h', id) && h'[id][0] == h[id][0]
    ensures Listings(cfg, s', h')
  {
    assert leaf in s.tree ==> Distinct(s.tree[leaf]) && Bounded(cfg, leaf, s.tree[leaf]);
    forall p | p in s.tree && id in s.tree[p] ensures ListedAt(cfg, s', h', p, id) {
      assert ListedAt(cfg, s, h, p, id);
    }
    assert ListedAt(cfg, s', h', leaf, id);
    assert Distinct(s'.tree[leaf]) && Bounded(cfg, leaf, s'.tree[leaf]);
    ListingsAfterStep(cfg, s, h, s', h', leaf, id);
  }

  lemma MergeKeepsInv(cfg: Config, s: State, h: History, s': State, leaf: Path, tokens: Tokens, id: nat)
    requires Inv(cfg, s, h) && AllWords(tokens) && MergeStep(cfg, s, s', id, leaf, tokens)
    ensures Inv(cfg, s', h[id := h[id] + [tokens]])
  {
    var h' := h[id := h[id] + [tokens]];
    MergeKeepsFaithful(cfg, s, h, s', leaf, tokens, id);
    MergeKeepsListings(cfg, s, h, s', h', leaf, tokens, id);
    AttachedAfterStep(cfg, s, h, s', h', leaf, id);
  }

  /** What a search returns is listed on the leaf it reached and has the length of the message. */
  lemma SearchFinds(cfg: Config, s: State, tokens: Tokens)
    requires tokens != [] && WellFormed(s) && Search(cfg, s, tokens).Some?
    ensures var id := Search(cfg, s, tokens).value;
      && SearchLeaf(cfg, s, tokens).Some?
      && id in s.tree[SearchLeaf(cfg, s, tokens).value]
      && |s.clusters[id].template| == |tokens|
      && Similarity(s.clusters[id].template, tokens) > 0.0
      && Similarity(s.clusters[id].template, tokens) >= cfg.simThreshold
  {
    var leaf := SearchLeaf(cfg, s, tokens).value;
    BestIsFirstMaximum(cfg.simThreshold, s.clusters, s.tree[leaf], tokens);
  }

  /** The three things that adding a message can do. */
  ghost predicate AddStep(cfg: Config, s: State, s': State, r: Result, leaf: Path, tokens: Tokens) {
    match r.changeType
    case Nothing => tokens == [] && s' == s && r.clusterID == 0
    case Created => tokens != [] && r.clusterID == s'.clusterID && CreateStep(cfg, s, s', tokens)
    case _ => tokens != [] && MergeStep(cfg, s, s', r.clusterID, leaf, tokens)
  }

  lemma AddSteps(cfg: Config, s: State, tokens: Tokens) returns (leaf: Path)
    requires WellFormed(s) && Closed(s.tree)
    ensures var (s', r) := Add(cfg, s, tokens); AddStep(cfg, s, s', r, leaf, tokens)
  {
    leaf := Root;
    if tokens != [] {
      if Search(cfg, s, tokens).Some? {
        SearchFinds(cfg, s, tokens);
        leaf := MergeEffect(cfg, s, Search(cfg, s, tokens).value, tokens);
      } else {
        CreateEffect(cfg, s, tokens);
      }
    }
  }

  lemma StepKeepsInv(cfg: Config, s: State, h: History, s': State, r: Result, leaf: Path, tokens: Tokens)
    requires Inv(cfg, s, h) && AllWords(tokens) && AddStep(cfg, s, s', r, leaf, tokens)
    ensures Inv(cfg, s', Record(h, r, tokens))
  {
    match r.changeType
    case Nothing =>
    case Created => CreateKeepsInv(cfg, s, h, s', tokens);
    case _ => MergeKeepsInv(cfg, s, h, s', leaf, tokens, r.clusterID);
  }

  /** Every step of clustering keeps the invariant. */
  lemma AddKeepsInv(cfg: Config, s: State, h: History, tokens: Tokens)
    requires Inv(cfg, s, h) && AllWords(tokens) && WellFormed(s)
    ensures var (s', r) := Add(cfg, s, tokens); Inv(cfg, s', Record(h, r, tokens))
  {
    var leaf := AddSteps(cfg, s, tokens);
    var (s', r) := Add(cfg, s, tokens);
    StepKeepsInv(cfg, s, h, s', r, leaf, tokens);
  }

  /** What holds of every state without regard to its history. */
  ghost predicate Sound(s: State) {
    && WellFormed(s) && Closed(s.tree)
    && (forall id :: id in s.clusters <==> 1 <= id <= s.clusterID)
    && (forall id :: id in s.clusters ==> s.clusters[id].size >= 1)
  }

  lemma SoundAfter(cfg: Config, s: State, tokens: Tokens)
    requires Sound(s)
    ensures Sound(Add(cfg, s, tokens).0)
  {
    hide WellFormed, Closed, Add, Grown, Generalize, Evict;
    var leaf := AddSteps(cfg, s, tokens);
    var (s', r) := Add(cfg, s, tokens);
    StepKeepsWellFormed(cfg, s, s', r, leaf, tokens);
  }

  lemma WellFormedAfter(cfg: Config, s: State, tokens: Tokens)
    requires WellFormed(s) && Closed(s.tree)
    ensures WellFormed(Add(cfg, s, tokens).0) && Closed(Add(cfg, s, tokens).0.tree)
  {
    var leaf := AddSteps(cfg, s, tokens);
    var (s', r) := Add(cfg, s, tokens);
    StepKeepsWellFormed(cfg, s, s', r, leaf, tokens);
  }

  lemma StepKeepsWellFormed(cfg: Config, s: State, s': State, r: Result, leaf: Path, tokens: Tokens)
    requires WellFormed(s) && Closed(s.tree) && AddStep(cfg, s, s', r, leaf, tokens)
    ensures WellFormed(s') && Closed(s'.tree)
  {
  }
}
