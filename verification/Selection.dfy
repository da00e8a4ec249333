/** Clusters by size, and the choice of the largest ones. */
module Selection {
  import opened DrainModel

  /** Distinct stored clusters. */
  ghost predicate Choice(clusters: Clusters, ids: seq<nat>) {
    Distinct(ids) && forall i :: 0 <= i < |ids| ==> ids[i] in clusters
  }

  /** Largest first, and nothing outside is larger than anything inside. */
  ghost predicate Largest(clusters: Clusters, top: seq<nat>) {
    && Choice(clusters, top)
    && (forall i, j :: 0 <= i < j < |top| ==> clusters[top[i]].size >= clusters[top[j]].size)
    && (forall id, i :: id in clusters && id !in top && 0 <= i < |top| ==> clusters[id].size <= clusters[top[i]].size)
  }

  ghost function SizeSum(clusters: Clusters, ids: seq<nat>): nat {
    if ids == [] then 0
    else SizeSum(clusters, ids[..|ids| - 1]) + (if ids[|ids| - 1] in clusters then clusters[ids[|ids| - 1]].size else 0)
  }

  ghost function Without(ids: seq<nat>, p: nat): (rest: seq<nat>)
    requires p < |ids|
    ensures |rest| == |ids| - 1
  {
    ids[..p] + ids[p + 1..]
  }

  lemma {:induction false} SizeSumWithout(clusters: Clusters, ids: seq<nat>, p: nat)
    requires p < |ids| && ids[p] in clusters
    ensures SizeSum(clusters, ids) == SizeSum(clusters, Without(ids, p)) + clusters[ids[p]].size
  {
    var n := |ids| - 1;
    if p == n {
      assert Without(ids, p) == ids[..n];
    } else {
      SizeSumWithout(clusters, ids[..n], p);
      assert Without(ids, p)[..n - 1] == Without(ids[..n], p);
      assert Without(ids, p)[n - 1] == ids[n];
    }
  }

  lemma WithoutIsChoice(clusters: Clusters, ids: seq<nat>, p: nat)
    requires p < |ids| && Choice(clusters, ids)
    ensures Choice(clusters, Without(ids, p)) && ids[p] !in Without(ids, p) && ids[p] in clusters
  {
  }

  lemma LargestButLast(clusters: Clusters, top: seq<nat>)
    requires Largest(clusters, top) && top != []
    ensures Largest(clusters, top[..|top| - 1]) && top[|top| - 1] in clusters
  {
  }

  /** As many of the largest clusters hold at least as much as any choice. */
  lemma {:induction false} LargestDominate(clusters: Clusters, top: seq<nat>, chosen: seq<nat>)
    requires Largest(clusters, top) && Choice(clusters, chosen) && |chosen| == |top|
    ensures SizeSum(clusters, chosen) <= SizeSum(clusters, top)
  {
    hide Largest, Choice;
    if top != [] {
      var n := |top| - 1;
      LargestButLast(clusters, top);
      var p := SmallPosition(clusters, top, chosen);
      WithoutIsChoice(clusters, chosen, p);
      SizeSumWithout(clusters, chosen, p);
      LargestDominate(clusters, top[..n], Without(chosen, p));
    }
  }

  /** Some chosen cluster is no larger than the last of the largest. */
  lemma SmallPosition(clusters: Clusters, top: seq<nat>, chosen: seq<nat>) returns (p: nat)
    requires Largest(clusters, top) && Choice(clusters, chosen) && |chosen| == |top| > 0
    ensures p < |chosen| && chosen[p] in clusters && top[|top| - 1] in clusters
    ensures clusters[chosen[p]].size <= clusters[top[|top| - 1]].size
  {
    var n := |top| - 1;
    if p' :| 0 <= p' < |chosen| && chosen[p'] !in top[..n] {
      p := p';
      assert chosen[p] in top ==> chosen[p] == top[n];
    } else {
      Pigeonhole(chosen, top[..n]);
    }
  }

  lemma {:induction false} Pigeonhole(a: seq<nat>, b: seq<nat>)
    requires Distinct(a) && forall i :: 0 <= i < |a| ==> a[i] in b
    ensures |a| <= |b|
  {
    if a != [] {
      var n := |a| - 1;
      var q :| 0 <= q < |b| && b[q] == a[n];
      forall i | 0 <= i < n ensures a[..n][i] in Without(b, q) {
        var p :| 0 <= p < |b| && b[p] == a[i];
        assert Without(b, q)[if p < q then p else p - 1] == a[i];
      }
      Pigeonhole(a[..n], Without(b, q));
    }
  }

  lemma LargestPrefix(clusters: Clusters, top: seq<nat>, k: nat)
    requires Largest(clusters, top) && k <= |top|
    ensures Largest(clusters, top[..k])
    decreases |top| - k
  {
    if k == |top| {
      assert top[..k] == top;
    } else {
      LargestPrefix(clusters, top, k + 1);
      LargestButLast(clusters, top[..k + 1]);
      assert top[..k + 1][..k] == top[..k];
    }
  }

  /** Taking the largest until the target is reached: no smaller choice reaches it. */
  lemma GreedyIsOptimal(clusters: Clusters, top: seq<nat>, k: nat, target: int, chosen: seq<nat>)
    requires Largest(clusters, top) && k <= |top|
    requires forall j :: 0 <= j < k ==> SizeSum(clusters, top[..j]) < target
    requires Choice(clusters, chosen) && SizeSum(clusters, chosen) >= target
    ensures |chosen| >= k
  {
    if |chosen| < k {
      LargestPrefix(clusters, top, |chosen|);
      LargestDominate(clusters, top[..|chosen|], chosen);
    }
  }
}
