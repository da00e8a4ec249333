/** When a generalised cluster can lose its place on the wildcard leaf. */
module DrainEviction {
  import opened Text
  import opened Tokenizer
  import opened DrainModel
  import opened DrainInvariants
  import opened DrainStability
  import opened DrainRuns

  /** Two similar messages, and messages of literal wildcards down to the leaf that resemble nothing. */
  function First(n: nat): Tokens { seq(n, i => "a") }

  function Second(n: nat): Tokens
    requires n > 0
  {
    First(n)[n - 1 := "b"]
  }

  function Common(n: nat): Tokens
    requires n > 0
  {
    First(n)[n - 1 := WILDCARD]
  }

  function Stranger(k: nat, n: nat, j: nat): Tokens {
    seq(n, i => if i < k then WILDCARD else seq(j + 1, c => 'x'))
  }

  function Crowd(k: nat, n: nat, j: nat): (msgs: seq<Tokens>)
    requires n > 0
    ensures |msgs| == j + 2
  {
    if j == 0 then [First(n), Second(n)] else Crowd(k, n, j - 1) + [Stranger(k, n, j)]
  }

  /** Messages long enough: two that differ once merge, two that share what leads to the leaf do not. */
  ghost predicate IsRoomy(cfg: Config, n: nat) {
    && cfg.maxChildren > 0 && cfg.maxNodeDepth >= 2 && n > cfg.maxNodeDepth
    && cfg.maxNodeDepth as real < cfg.simThreshold * n as real && (n - 1) as real >= cfg.simThreshold * n as real
  }

  lemma {:induction false} CrowdIsTokenized(k: nat, n: nat, j: nat)
    requires 1 <= k < n
    ensures Tokenized(Crowd(k, n, j)) && Common(n) !in Crowd(k, n, j)
    ensures forall m :: m in Crowd(k, n, j) ==> |m| == n
  {
    assert IsWord("a") && IsWord("b") && IsWord(WILDCARD);
    assert "a" != WILDCARD && "b" != WILDCARD && WILDCARD[0] == '<';
    if j == 0 {
      assert First(n)[n - 1] == "a" && Second(n)[n - 1] == "b" && Common(n)[n - 1] == WILDCARD;
      assert AllWords(First(n)) && AllWords(Second(n));
    } else {
      CrowdIsTokenized(k, n, j - 1);
      var x: string := seq(j + 1, c => 'x');
      assert IsWord(x) && x[0] == 'x';
      assert AllWords(Stranger(k, n, j));
      assert Stranger(k, n, j)[0] == WILDCARD && Common(n)[0] == "a";
    }
  }

  // How similar these messages are

  lemma {:induction false} FewAgree(template: Tokens, tokens: Tokens, k: nat, p: nat)
    requires k <= p <= |template| == |tokens| && forall i :: k <= i < p ==> !Agrees(template, tokens, i)
    ensures MatchCount(template, tokens, p) <= k
    decreases p
  {
    if p > k {
      FewAgree(template, tokens, k, p - 1);
    }
  }

  lemma Ratio(c: real, n: real, th: real)
    requires n > 0.0
    ensures c / n < th <==> c < th * n
  {
    var q := c / n;
    assert q * n == c && (th - q) * n == th * n - c;
    if q < th {
      assert (th - q) * n > 0.0;
    } else {
      assert (q - th) * n >= 0.0 && (q - th) * n == c - th * n;
    }
  }

  lemma LessThanThreshold(cfg: Config, c: nat, n: nat)
    requires IsRoomy(cfg, n) && c <= cfg.maxNodeDepth
    ensures c as real / n as real < cfg.simThreshold
  {
    Ratio(c as real, n as real, cfg.simThreshold);
  }

  lemma StrangerToCommon(cfg: Config, k: nat, n: nat, j: nat)
    requires IsRoomy(cfg, n) && 1 <= k < n
    ensures Similarity(Common(n), Stranger(k, n, j)) < cfg.simThreshold
  {
    var t, m := Common(n), Stranger(k, n, j);
    var x: string := seq(j + 1, c => 'x');
    assert x[0] == 'x' && "a"[0] == 'a' && WILDCARD[0] == '<';
    forall i | 0 <= i < n - 1 ensures !Agrees(t, m, i) {
      assert t[i] == "a";
    }
    FewAgree(t, m, 0, n - 1);
    LessThanThreshold(cfg, MatchCount(t, m, n), n);
  }

  lemma StrangerToStranger(cfg: Config, k: nat, n: nat, i: nat, j: nat)
    requires IsRoomy(cfg, n) && k <= cfg.maxNodeDepth && k <= n && i != j
    ensures Similarity(Stranger(k, n, i), Stranger(k, n, j)) < cfg.simThreshold
  {
    var t, m := Stranger(k, n, i), Stranger(k, n, j);
    var x: string := seq(i + 1, c => 'x');
    var y: string := seq(j + 1, c => 'x');
    assert |x| != |y| && x[0] == 'x' && WILDCARD[0] == '<';
    forall p | k <= p < n ensures !Agrees(t, m, p) {
      assert t[p] == x && m[p] == y;
    }
    FewAgree(t, m, k, n);
    LessThanThreshold(cfg, MatchCount(t, m, n), n);
  }

  lemma SecondToFirst(cfg: Config, n: nat)
    requires IsRoomy(cfg, n)
    ensures Similarity(First(n), Second(n)) >= cfg.simThreshold && Similarity(First(n), Second(n)) > 0.0
    ensures Generalize(First(n), Second(n)) == Common(n) != First(n)
  {
    var t, m := First(n), Second(n);
    assert forall i :: 0 <= i < n - 1 ==> Agrees(t, m, i);
    assert t[n - 1] == "a" && m[n - 1] == "b";
    assert "a"[0] == 'a' && "b"[0] == 'b' && WILDCARD[0] == '<';
    assert MatchCount(t, m, n) >= n - 1;
    AtLeastThreshold(cfg, MatchCount(t, m, n), n);
    assert Common(n)[n - 1] == WILDCARD;
  }

  lemma AtLeastThreshold(cfg: Config, c: nat, n: nat)
    requires IsRoomy(cfg, n) && c >= n - 1
    ensures c as real / n as real >= cfg.simThreshold && c as real / n as real > 0.0
  {
    Ratio(c as real, n as real, cfg.simThreshold);
    Ratio(0.0, n as real, c as real / n as real);
    assert 0.0 / n as real == 0.0;
  }

  // Where they go

  lemma {:induction false} StrangersWay(n: nat, k: nat, j: nat, i: nat)
    requires i <= k <= n
    ensures WayTo(n, Stranger(k, n, j), i) == Wilds(n, i)
  {
    if i > 0 {
      StrangersWay(n, k, j, i - 1);
    }
  }

  lemma {:induction false} SameWay(n: nat, i: nat)
    requires i < n
    ensures WayTo(n, First(n), i) == WayTo(n, Second(n), i)
  {
    if i > 0 {
      SameWay(n, i - 1);
    }
  }

  /** After the first two messages and j strangers: their clusters, all listed on the wildcard leaf in order. */
  ghost predicate IsCrowded(cfg: Config, s: State, n: nat, j: nat)
    requires n > 0
  {
    var k, leaf := Levels(cfg, n), WildLeaf(cfg, n);
    && s.clusterID == j + 1 && (forall i :: i in s.clusters <==> 1 <= i <= j + 1)
    && s.clusters[1].template == Common(n)
    && (forall i :: 1 <= i <= j ==> s.clusters[i + 1].template == Stranger(k, n, i))
    && leaf in s.tree && s.tree[leaf] == if j < cfg.maxChildren then seq(j + 1, i => i + 1) else seq(j, i => i + 2)
  }

  lemma FirstIsCreated(cfg: Config, n: nat)
    requires IsRoomy(cfg, n)
    ensures var (s, _) := Add(cfg, INITIAL, First(n));
      && s.clusterID == 1 && s.clusters == map[1 := Cluster(First(n), 1)]
      && Closed(s.tree) && WellFormed(s) && LeafPath(cfg, First(n)) in s.tree && s.tree[LeafPath(cfg, First(n))] == [1]
      && forall p :: p in s.tree && p != LeafPath(cfg, First(n)) ==> s.tree[p] == []
  {
    var (s, _) := Add(cfg, INITIAL, First(n));
    assert Search(cfg, INITIAL, First(n)).None?;
    CreateEffect(cfg, INITIAL, First(n));
    WellFormedAfter(cfg, INITIAL, First(n));
  }

  /** The search for the second message finds the first one's cluster. */
  lemma SecondIsFound(cfg: Config, s: State, n: nat)
    requires IsRoomy(cfg, n) && WellFormed(s) && Closed(s.tree) && s.clusters == map[1 := Cluster(First(n), 1)]
    requires LeafPath(cfg, First(n)) in s.tree && s.tree[LeafPath(cfg, First(n))] == [1]
    ensures Search(cfg, s, Second(n)) == Some(1)
  {
    SameWay(n, Levels(cfg, n));
    SearchLeafExact(cfg, s, Second(n));
    SecondToFirst(cfg, n);
    BestIsFirstMaximum(cfg.simThreshold, s.clusters, [1], Second(n));
  }

  lemma AddMerges(cfg: Config, s: State, m: Tokens, id: nat) returns (leaf: Path)
    requires WellFormed(s) && Closed(s.tree) && m != [] && Search(cfg, s, m) == Some(id)
    ensures MergeStep(cfg, s, Add(cfg, s, m).0, id, leaf, m)
  {
    hide Search, WellFormed, Merge, Create;
    leaf := AddSteps(cfg, s, m);
  }

  lemma LeavesDiffer(cfg: Config, n: nat)
    requires IsRoomy(cfg, n)
    ensures LeafPath(cfg, First(n)) != WildLeaf(cfg, n)
  {
    var k := Levels(cfg, n);
    assert k > 0 && First(n)[k - 1] == "a" && "a"[0] != WILDCARD[0];
  }

  lemma SecondMerges(cfg: Config, s: State, n: nat)
    requires IsRoomy(cfg, n) && WellFormed(s) && Closed(s.tree)
    requires s.clusterID == 1 && s.clusters == map[1 := Cluster(First(n), 1)]
    requires LeafPath(cfg, First(n)) in s.tree && s.tree[LeafPath(cfg, First(n))] == [1]
    requires forall p :: p in s.tree && p != LeafPath(cfg, First(n)) ==> s.tree[p] == []
    ensures IsCrowded(cfg, Add(cfg, s, Second(n)).0, n, 0)
  {
    SecondIsFound(cfg, s, n);
    LeavesDiffer(cfg, n);
    var leaf := AddMerges(cfg, s, Second(n), 1);
    hide Add, Search, LeafPath, MergeStep, IsCrowded;
    MergedIsCrowded(cfg, s, Add(cfg, s, Second(n)).0, leaf, n);
  }

  lemma MergedIsCrowded(cfg: Config, s: State, s': State, leaf: Path, n: nat)
    requires IsRoomy(cfg, n) && MergeStep(cfg, s, s', 1, leaf, Second(n))
    requires s.clusterID == 1 && s.clusters == map[1 := Cluster(First(n), 1)]
    requires WildLeaf(cfg, n) in s.tree ==> s.tree[WildLeaf(cfg, n)] == []
    ensures IsCrowded(cfg, s', n, 0)
  {
    SecondToFirst(cfg, n);
    hide Similarity, WildLeaf, Closed, Shadowed, AllWild, Generalize, Second, Common;
    assert s'.clusters == s.clusters[1 := Cluster(Common(n), 2)];
    assert leaf == WildLeaf(cfg, n) && s'.tree[leaf] == [1] == seq(1, i => i + 1);
  }

  lemma StrangerIsNotFound(cfg: Config, s: State, n: nat, j: nat)
    requires IsRoomy(cfg, n) && WellFormed(s) && Closed(s.tree) && IsCrowded(cfg, s, n, j)
    ensures Search(cfg, s, Stranger(Levels(cfg, n), n, j + 1)).None?
    ensures LeafPath(cfg, Stranger(Levels(cfg, n), n, j + 1)) == WildLeaf(cfg, n)
  {
    var k, leaf := Levels(cfg, n), WildLeaf(cfg, n);
    var m := Stranger(k, n, j + 1);
    StrangersWay(n, k, j + 1, k);
    SearchLeafExact(cfg, s, m);
    var ids := s.tree[leaf];
    forall i | 0 <= i < |ids| ensures Similarity(s.clusters[ids[i]].template, m) < cfg.simThreshold {
      if ids[i] == 1 {
        StrangerToCommon(cfg, k, n, j + 1);
      } else {
        assert s.clusters[ids[i] - 1 + 1].template == Stranger(k, n, ids[i] - 1);
        StrangerToStranger(cfg, k, n, ids[i] - 1, j + 1);
      }
    }
    BestIsFirstMaximum(cfg.simThreshold, s.clusters, ids, m);
  }

  lemma StrangerIsCreated(cfg: Config, s: State, n: nat, j: nat)
    requires IsRoomy(cfg, n) && WellFormed(s) && Closed(s.tree) && IsCrowded(cfg, s, n, j) && j < cfg.maxChildren
    ensures IsCrowded(cfg, Add(cfg, s, Stranger(Levels(cfg, n), n, j + 1)).0, n, j + 1)
  {
    var k, leaf := Levels(cfg, n), WildLeaf(cfg, n);
    var m := Stranger(k, n, j + 1);
    StrangerIsNotFound(cfg, s, n, j);
    CreateEffect(cfg, s, m);
    var s' := Add(cfg, s, m).0;
    hide Create, Search, Closed, WellFormed, Stranger, Common, Add;
    assert CreateStep(cfg, s, s', m) by { AddCreates(cfg, s, m); }
    var list := seq(j + 1, i => i + 1) + [j + 2];
    assert s'.tree[leaf] == Evict(cfg, list);
    assert list == seq(j + 2, i => i + 1) && list[1..] == seq(j + 1, i => i + 2);
    assert s'.clusters[j + 2].template == m;
    forall i | 1 <= i <= j + 1 ensures s'.clusters[i + 1].template == Stranger(k, n, i) {
    }
  }

  lemma AddCreates(cfg: Config, s: State, m: Tokens)
    requires WellFormed(s) && Closed(s.tree) && m != [] && Search(cfg, s, m).None?
    ensures CreateStep(cfg, s, Add(cfg, s, m).0, m)
  {
    CreateEffect(cfg, s, m);
  }

  lemma {:induction false} CrowdGathers(cfg: Config, n: nat, j: nat)
    requires IsRoomy(cfg, n) && j <= cfg.maxChildren
    ensures IsCrowded(cfg, Run(cfg, Crowd(Levels(cfg, n), n, j)).state, n, j)
  {
    assert n > 0;
    hide Add, IsCrowded, IsRoomy, WellFormed, Closed, First, Second, Stranger;
    var k := Levels(cfg, n);
    if j == 0 {
      assert [First(n)] == [] + [First(n)] && Crowd(k, n, 0) == [First(n)] + [Second(n)];
      RunLast(cfg, [], First(n));
      RunLast(cfg, [First(n)], Second(n));
      FirstIsCreated(cfg, n);
      SecondMerges(cfg, Run(cfg, [First(n)]).state, n);
    } else {
      CrowdGathers(cfg, n, j - 1);
      RunLast(cfg, Crowd(k, n, j - 1), Stranger(k, n, j));
      StrangerIsCreated(cfg, Run(cfg, Crowd(k, n, j - 1)).state, n, j - 1);
    }
  }

  /** As many strangers as the leaf has room for drive the generalised cluster out. */
  lemma CrowdEvicts(cfg: Config, n: nat)
    requires IsRoomy(cfg, n)
    ensures var msgs := Crowd(Levels(cfg, n), n, cfg.maxChildren); Tokenized(msgs) && !StaysAttached(cfg, msgs, 1)
  {
    var msgs := Crowd(Levels(cfg, n), n, cfg.maxChildren);
    CrowdGathers(cfg, n, cfg.maxChildren);
    CrowdIsTokenized(Levels(cfg, n), n, cfg.maxChildren);
    FirstIsOut(cfg, Run(cfg, msgs).state, n);
    CommonIsNobodys(cfg, msgs, 1, n);
    hide IsCrowded, IsRoomy, Crowd, Common, Run, Assigned;
  }

  lemma FirstIsOut(cfg: Config, s: State, n: nat)
    requires IsRoomy(cfg, n) && IsCrowded(cfg, s, n, cfg.maxChildren)
    ensures 1 in s.clusters && s.clusters[1].template == Common(n) && |Common(n)| == n && Levels(cfg, n) > 0
    ensures WildLeaf(cfg, n) in s.tree && 1 !in s.tree[WildLeaf(cfg, n)]
  {
  }

  /** A template that is no message is not the first message of its cluster. */
  lemma CommonIsNobodys(cfg: Config, msgs: seq<Tokens>, id: nat, n: nat)
    requires Tokenized(msgs) && n > 0 && Common(n) !in msgs && id in Run(cfg, msgs).state.clusters
    ensures var mine := Assigned(msgs, Run(cfg, msgs).results, id); mine != [] && mine[0] != Common(n)
  {
    hide Add, Common, IsLeastGeneralization;
    var o := Run(cfg, msgs);
    RunKeepsInv(cfg, msgs);
    HistoryIsAssigned(cfg, msgs, id);
    AssignedAreMessages(msgs, o.results, id, 0);
  }

  // With a threshold of 1 nothing is generalised

  ghost predicate KeepsFirst(s: State, h: History) {
    forall id :: id in s.clusters ==> id in h && h[id] != [] && s.clusters[id].template == h[id][0]
  }

  lemma FullMatchKeepsTemplate(cfg: Config, s: State, h: History, tokens: Tokens)
    requires Inv(cfg, s, h) && WellFormed(s) && cfg.simThreshold >= 1.0 && KeepsFirst(s, h)
    ensures var (s', r) := Add(cfg, s, tokens); KeepsFirst(s', Record(h, r, tokens))
  {
    hide Add, Inv, WellFormed;
    if tokens == [] {
      EmptyIsIgnored(cfg, s);
    } else if Search(cfg, s, tokens).Some? {
      FullMatchIsCovered(cfg, s, tokens);
    } else {
      NewIsFirst(cfg, s, h, tokens);
    }
  }

  lemma EmptyIsIgnored(cfg: Config, s: State)
    requires WellFormed(s)
    ensures Add(cfg, s, []) == (s, Result(Nothing, 0, 0, |s.clusters|, ""))
  {
  }

  /** A new cluster keeps the templates of the others. */
  lemma NewIsFirst(cfg: Config, s: State, h: History, tokens: Tokens)
    requires Inv(cfg, s, h) && WellFormed(s) && KeepsFirst(s, h) && tokens != [] && Search(cfg, s, tokens).None?
    ensures var (s', r) := Add(cfg, s, tokens);
      && r.changeType == Created
      && s'.clusters == s.clusters[r.clusterID := Cluster(tokens, 1)]
  {
    CreateEffect(cfg, s, tokens);
    hide Create;
  }

  lemma FullMatchIsCovered(cfg: Config, s: State, tokens: Tokens)
    requires WellFormed(s) && cfg.simThreshold >= 1.0 && tokens != [] && Search(cfg, s, tokens).Some?
    ensures var (id, (s', r)) := (Search(cfg, s, tokens).value, Add(cfg, s, tokens));
      && r.changeType == SizeChanged && r.clusterID == id
      && s'.clusters == s.clusters[id := s.clusters[id].(size := s.clusters[id].size + 1)]
  {
    var id := Search(cfg, s, tokens).value;
    SearchFinds(cfg, s, tokens);
    SimilarityRange(s.clusters[id].template, tokens);
    GeneralizeCovers(s.clusters[id].template, tokens);
  }

  lemma {:induction false} TemplatesStayFirst(cfg: Config, msgs: seq<Tokens>)
    requires Tokenized(msgs) && cfg.simThreshold >= 1.0
    ensures KeepsFirst(Run(cfg, msgs).state, Run(cfg, msgs).history)
  {
    hide Add, Record, Inv;
    if msgs != [] {
      hide KeepsFirst;
      var init := msgs[..|msgs| - 1];
      TemplatesStayFirst(cfg, init);
      RunKeepsInv(cfg, init);
      FullMatchKeepsTemplate(cfg, Run(cfg, init).state, Run(cfg, init).history, msgs[|msgs| - 1]);
    }
  }

  lemma NothingToDetach(cfg: Config, msgs: seq<Tokens>, id: nat)
    requires Tokenized(msgs) && (cfg.simThreshold >= 1.0 || cfg.maxNodeDepth <= 1)
    ensures StaysAttached(cfg, msgs, id)
  {
    hide Add, Run;
    RunKeepsInv(cfg, msgs);
    HistoryIsAssigned(cfg, msgs, id);
    if cfg.simThreshold >= 1.0 {
      TemplatesStayFirst(cfg, msgs);
    }
  }

  /** A length with room enough. */
  lemma RoomyLength(cfg: Config) returns (n: nat)
    requires cfg.maxChildren > 0 && cfg.maxNodeDepth >= 2 && 0.0 < cfg.simThreshold < 1.0
    ensures IsRoomy(cfg, n)
  {
    var d, th := cfg.maxNodeDepth as real, cfg.simThreshold;
    n := Above(d / th) + Above(1.0 / (1.0 - th)) + cfg.maxNodeDepth + 2;
    Ratio(d, th, n as real);
    Ratio(1.0, 1.0 - th, n as real);
    assert n as real * (1.0 - th) == n as real - th * n as real;
  }

  function Above(x: real): (n: nat)
    ensures n as real > x
  {
    if x < 0.0 then 0 else x.Floor + 1
  }

  /** For the thresholds of the configuration: generalised clusters stay on the wildcard leaf in every run
    * iff a leaf has no limit, or no wildcard leaf is ever a second one, or no two different messages merge. */
  lemma GeneralizedStaysAttachedIff(cfg: Config)
    requires cfg.simThreshold > 0.0
    ensures cfg.maxChildren <= 0 || cfg.maxNodeDepth <= 1 || cfg.simThreshold >= 1.0 <==>
      forall msgs, id: nat :: Tokenized(msgs) ==> StaysAttached(cfg, msgs, id)
  {
    if cfg.maxChildren <= 0 || cfg.maxNodeDepth <= 1 || cfg.simThreshold >= 1.0 {
      forall msgs, id: nat | Tokenized(msgs) ensures StaysAttached(cfg, msgs, id) {
        if cfg.maxChildren <= 0 {
          GeneralizedStaysAttached(cfg, msgs, id);
        } else {
          NothingToDetach(cfg, msgs, id);
        }
      }
    } else {
      var n := RoomyLength(cfg);
      CrowdEvicts(cfg, n);
    }
  }
}
