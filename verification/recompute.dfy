/** The parallel centroid recompute: a divide-and-conquer task over a range of
    cluster indices. A leaf recomputes each of its clusters in turn and
    reports whether every one of them stayed within the tolerance; a parent
    runs its two halves and combines their reports with AND. The halves touch
    disjoint indices, so the fork/join scheduling is plain recursion here. */
module RecomputeTask {
  import opened Points
  import opened Clusters
  import opened DistanceUtils

  /** Every member has at least the centroid's coordinates, so the mean can
      be taken in the centroid's dimension. */
  predicate Recomputable(c: Cluster) {
    Covers(c.members, c.centroid.Dim())
  }

  predicate AllRecomputable(cs: seq<Cluster>) {
    forall i :: 0 <= i < |cs| ==> Recomputable(cs[i])
  }

  /** The movement test with the square root taken away: a distance, never
      negative, is at most tol exactly when tol is not negative and the
      squared distance is at most tol * tol. */
  predicate Settled(c: Cluster, tol: real)
    requires Recomputable(c)
  {
    0.0 <= tol && SqDist(c.centroid, Recompute(c).centroid) <= tol * tol
  }

  /** What a task returns: the clusters as they are afterwards, and whether
      every cluster of its range stayed within the tolerance. */
  datatype Recomputed = Recomputed(clusters: seq<Cluster>, converged: bool)

  /** A recompute keeps the members and the dimension, so it can be repeated. */
  lemma RecomputeKeepsRecomputable(c: Cluster)
    requires Recomputable(c)
    ensures Recomputable(Recompute(c))
  {
  }

  /** The effect every task has on a range [s, e): each cluster inside is
      recomputed once, each cluster outside is left as it was, and the flag
      holds exactly when every cluster inside stayed within the tolerance. */
  predicate RecomputedRange(cs: seq<Cluster>, s: nat, e: nat, tol: real, r: Recomputed)
    requires s <= e <= |cs| && AllRecomputable(cs)
  {
    && |r.clusters| == |cs|
    && (forall i :: 0 <= i < |cs| ==> r.clusters[i] == (if s <= i < e then Recompute(cs[i]) else cs[i]))
    && (r.converged <==> forall i :: s <= i < e ==> Settled(cs[i], tol))
  }

  /** Recomputing cluster e-1 after the range [s, e-1) has the effect of the
      range [s, e). */
  lemma SliceStep(cs: seq<Cluster>, s: nat, e: nat, tol: real, prev: Recomputed)
    requires s < e <= |cs| && AllRecomputable(cs)
    requires RecomputedRange(cs, s, e - 1, tol, prev) && AllRecomputable(prev.clusters)
    ensures prev.clusters[e - 1] == cs[e - 1]
    ensures var c := cs[e - 1];
      var r := Recomputed(prev.clusters[e - 1 := Recompute(c)], prev.converged && Settled(c, tol));
      RecomputedRange(cs, s, e, tol, r) && AllRecomputable(r.clusters)
  {
    var c := cs[e - 1];
    var r := Recomputed(prev.clusters[e - 1 := Recompute(c)], prev.converged && Settled(c, tol));
    RecomputeKeepsRecomputable(c);
    assert forall i :: 0 <= i < |cs| ==> r.clusters[i] == (if s <= i < e then Recompute(cs[i]) else cs[i]);
    assert r.converged <==> forall i :: s <= i < e ==> Settled(cs[i], tol);
  }

  /** A leaf: visits the clusters of [s, e) in index order, recomputes each
      and clears the flag on the first one that moves too far. */
  function RecomputeSlice(cs: seq<Cluster>, s: nat, e: nat, tol: real): (r: Recomputed)
    requires s <= e <= |cs| && AllRecomputable(cs)
    ensures RecomputedRange(cs, s, e, tol, r)
    ensures AllRecomputable(r.clusters)
    decreases e - s
  {
    if e == s then Recomputed(cs, true)
    else
      var prev := RecomputeSlice(cs, s, e - 1, tol);
      var c := prev.clusters[e - 1];
      SliceStep(cs, s, e, tol, prev);
      Recomputed(prev.clusters[e - 1 := Recompute(c)], prev.converged && Settled(c, tol))
  }

  /** `compute` with a given leaf size: ranges of at most that many clusters
      are a leaf; longer ones split at the midpoint, run the left half and
      then the right half on the left half's output, and AND the flags. */
  function RecomputeRange(threshold: nat, cs: seq<Cluster>, s: nat, e: nat, tol: real): (r: Recomputed)
    requires threshold >= 1
    requires s <= e <= |cs| && AllRecomputable(cs)
    ensures RecomputedRange(cs, s, e, tol, r)
    ensures AllRecomputable(r.clusters)
    decreases e - s
  {
    if e - s <= threshold then RecomputeSlice(cs, s, e, tol)
    else
      var mid := (s + e) / 2;
      var left := RecomputeRange(threshold, cs, s, mid, tol);
      var right := RecomputeRange(threshold, left.clusters, mid, e, tol);
      Recomputed(right.clusters, left.converged && right.converged)
  }

  /** The task's leaf size of 2. */
  const Threshold: nat := 2

  /** `pool.invoke` of the task over every cluster. */
  function RecomputeAll(cs: seq<Cluster>, tol: real): (r: Recomputed)
    requires AllRecomputable(cs)
    ensures RecomputedRange(cs, 0, |cs|, tol, r)
  {
    RecomputeRange(Threshold, cs, 0, |cs|, tol)
  }

  /** Two results that both have the effect described by RecomputedRange
      are equal: the effect determines the clusters and the flag. */
  lemma {:induction false} RecomputedRangeUnique(cs: seq<Cluster>, s: nat, e: nat, tol: real, a: Recomputed, b: Recomputed)
    requires s <= e <= |cs| && AllRecomputable(cs)
    requires RecomputedRange(cs, s, e, tol, a) && RecomputedRange(cs, s, e, tol, b)
    ensures a == b
  {
    assert a.clusters == b.clusters by {
      forall i | 0 <= i < |cs|
        ensures a.clusters[i] == b.clusters[i]
      {
      }
    }
  }

  /** The split tree gives the same clusters and the same flag as the single
      leaf loop over the range, whatever the leaf size. */
  lemma {:induction false} RangeEqualsSlice(threshold: nat, cs: seq<Cluster>, s: nat, e: nat, tol: real)
    requires threshold >= 1
    requires s <= e <= |cs| && AllRecomputable(cs)
    ensures RecomputeRange(threshold, cs, s, e, tol) == RecomputeSlice(cs, s, e, tol)
  {
    RecomputedRangeUnique(cs, s, e, tol, RecomputeRange(threshold, cs, s, e, tol), RecomputeSlice(cs, s, e, tol));
  }

  /** An empty range reports convergence and changes nothing. */
  lemma EmptyRangeConverged(threshold: nat, cs: seq<Cluster>, s: nat, tol: real)
    requires threshold >= 1
    requires s <= |cs| && AllRecomputable(cs)
    ensures RecomputeRange(threshold, cs, s, s, tol) == Recomputed(cs, true)
  {
    assert RecomputeRange(threshold, cs, s, s, tol).clusters == cs;
  }

  lemma SquareNonNegative(t: real)
    ensures 0.0 <= t * t
  {
  }

  /** A cluster without members keeps its centroid, so it never breaks
      convergence whatever the (non-negative) tolerance. */
  lemma EmptyClusterSettled(c: Cluster, tol: real)
    requires |c.members| == 0 && 0.0 <= tol
    ensures Recomputable(c) && Settled(c, tol)
  {
    SqDistSelf(c.centroid);
    SquareNonNegative(tol);
  }

  /** A range of clusters without members comes back unchanged and
      converged. */
  lemma {:induction false} EmptyClustersConverge(threshold: nat, cs: seq<Cluster>, tol: real)
    requires threshold >= 1 && 0.0 <= tol
    requires forall i :: 0 <= i < |cs| ==> |cs[i].members| == 0
    ensures AllRecomputable(cs)
    ensures RecomputeRange(threshold, cs, 0, |cs|, tol) == Recomputed(cs, true)
  {
    forall i | 0 <= i < |cs|
      ensures Recomputable(cs[i]) && Settled(cs[i], tol)
    {
      EmptyClusterSettled(cs[i], tol);
    }
    var r := RecomputeRange(threshold, cs, 0, |cs|, tol);
    assert r.clusters == cs by {
      forall i | 0 <= i < |cs|
        ensures r.clusters[i] == cs[i]
      {
      }
    }
  }

  /** The mean depends only on the members, so recomputing twice moves the
      centroid no further. */
  lemma RecomputeIdempotent(c: Cluster)
    requires Recomputable(c)
    ensures Recompute(Recompute(c)) == Recompute(c)
  {
    if |c.members| > 0 {
      var r := Recompute(c);
      assert Mean(r.members, r.centroid.Dim()) == Mean(c.members, c.centroid.Dim());
    }
  }

  /** Running the task a second time over the same range leaves the clusters
      as the first run left them and reports convergence. */
  lemma {:induction false} SecondRunConverges(threshold: nat, cs: seq<Cluster>, s: nat, e: nat, tol: real)
    requires threshold >= 1 && 0.0 <= tol
    requires s <= e <= |cs| && AllRecomputable(cs)
    ensures var once := RecomputeRange(threshold, cs, s, e, tol);
            RecomputeRange(threshold, once.clusters, s, e, tol) == Recomputed(once.clusters, true)
  {
    var once := RecomputeRange(threshold, cs, s, e, tol);
    var twice := RecomputeRange(threshold, once.clusters, s, e, tol);
    forall i | s <= i < e
      ensures Settled(once.clusters[i], tol)
      ensures twice.clusters[i] == once.clusters[i]
    {
      RecomputeIdempotent(cs[i]);
      SqDistSelf(once.clusters[i].centroid);
      SquareNonNegative(tol);
    }
    assert twice.clusters == once.clusters by {
      forall i | 0 <= i < |cs|
        ensures twice.clusters[i] == once.clusters[i]
      {
      }
    }
  }
}
