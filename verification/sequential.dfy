/** The sequential engine: random initial centroids from a shuffled copy of
    the points, then Lloyd iterations (clear the memberships, assign every
    point to its nearest centroid, recompute every centroid) until an
    iteration moves no centroid further than the tolerance or the iteration
    cap is reached. */
module SequentialEngine {
  import opened Wrappers
  import opened Points
  import opened Clusters
  import opened DistanceUtils
  import opened KMeansConfig
  import opened AssignTask
  import opened RecomputeTask
  import opened EngineLoop
  import opened Sse

  /** perm lists 0 .. n-1 in some order: the order `Collections.shuffle`
      leaves a copy of an n-element list in. */
  predicate IsPermutation(perm: seq<nat>, n: nat) {
    && |perm| == n
    && (forall i :: 0 <= i < n ==> perm[i] < n)
    && (forall i, j :: 0 <= i < j < n ==> perm[i] != perm[j])
  }

  /** `initializeClusters`: cluster i gets the i-th point of the shuffled copy
      as its centroid and no members. `shuffled.get(i)` throws once i reaches
      the number of points. */
  function InitializeClusters(points: seq<Point>, k: int, perm: seq<nat>): (r: Result<seq<Cluster>>)
    requires IsPermutation(perm, |points|)
    ensures r.Err? <==> k > |points|
    ensures r.Err? ==> r.error == IndexOutOfBounds
    ensures r.Ok? ==> |r.value| == if k < 0 then 0 else k
    ensures r.Ok? ==> forall i :: 0 <= i < |r.value| ==> r.value[i] == NewCluster(points[perm[i]])
  {
    if k > |points| then Err(IndexOutOfBounds)
    else
      var n := if k < 0 then 0 else k;
      Ok(seq(n, i requires 0 <= i < n => NewCluster(points[perm[i]])))
  }

  /** The initial centroids are points at pairwise different positions of the
      input, each without members. */
  lemma InitialCentroidsDistinctPositions(points: seq<Point>, k: int, perm: seq<nat>, i: nat, j: nat)
    requires IsPermutation(perm, |points|)
    requires InitializeClusters(points, k, perm).Ok?
    requires i < j < |InitializeClusters(points, k, perm).value|
    ensures var cs := InitializeClusters(points, k, perm).value;
      exists a, b :: 0 <= a < |points| && 0 <= b < |points| && a != b &&
        cs[i] == Cluster(points[a], []) && cs[j] == Cluster(points[b], [])
  {
    var cs := InitializeClusters(points, k, perm).value;
    assert cs[i] == Cluster(points[perm[i]], []) && cs[j] == Cluster(points[perm[j]], []);
  }

  /** `clearPoints` on every cluster. */
  function ClearAll(cs: seq<Cluster>): (r: seq<Cluster>)
    ensures |r| == |cs|
    ensures forall j :: 0 <= j < |cs| ==> r[j].centroid == cs[j].centroid && |r[j].members| == 0
  {
    seq(|cs|, j requires 0 <= j < |cs| => ClearPoints(cs[j]))
  }

  lemma CentroidsOfClearAll(cs: seq<Cluster>)
    ensures Centroids(ClearAll(cs)) == Centroids(cs)
  {
    assert forall j :: 0 <= j < |cs| ==> Centroids(ClearAll(cs))[j] == Centroids(cs)[j];
  }

  /** `assignPointsToClusters` over the first n points: each is appended to
      the cluster whose centroid is nearest, ties going to the lowest index;
      with no clusters it is dropped. The centroids are read from the clusters
      and never change during the pass. */
  function AssignPrefix(cs: seq<Cluster>, points: seq<Point>, n: nat): (r: seq<Cluster>)
    requires n <= |points| && Assignable(points, Centroids(cs))
    ensures |r| == |cs|
  {
    if n == 0 then cs
    else
      var prev := AssignPrefix(cs, points, n - 1);
      var j := Nearest(points[n - 1], Centroids(cs));
      if j == -1 then prev else prev[j := AddPoint(prev[j], points[n - 1])]
  }

  /** One point of the pass, seen from cluster j: when the point goes to j
      it lands at the end of j's members, otherwise cluster j is unchanged. */
  lemma BucketStep(c: Cluster, prev: Cluster, next: Cluster, b: seq<Point>, b': seq<Point>, p: Point, hit: bool)
    requires prev.centroid == c.centroid && prev.members == c.members + b
    requires b' == b + (if hit then [p] else [])
    requires next == if hit then AddPoint(prev, p) else prev
    ensures next.centroid == c.centroid && next.members == c.members + b'
  {
    if hit {
      assert (c.members + b) + [p] == c.members + (b + [p]);
    } else {
      assert b + [] == b;
    }
  }

  /** The pass keeps centroid j and appends to cluster j exactly the points
      nearest to centroid j, in input order. */
  lemma {:induction false} AssignPrefixBucket(cs: seq<Cluster>, points: seq<Point>, n: nat, j: nat)
    requires n <= |points| && Assignable(points, Centroids(cs)) && j < |cs|
    ensures var r := AssignPrefix(cs, points, n);
      r[j].centroid == cs[j].centroid && r[j].members == cs[j].members + Bucket(points, 0, n, Centroids(cs), j)
  {
    if n > 0 {
      AssignPrefixBucket(cs, points, n - 1, j);
      AssignPrefixNext(cs, points, n - 1);
      var cents := Centroids(cs);
      var prev, r := AssignPrefix(cs, points, n - 1), AssignPrefix(cs, points, n);
      var hit := Nearest(points[n - 1], cents) == j;
      assert r[j] == if hit then AddPoint(prev[j], points[n - 1]) else prev[j];
      BucketNext(points, 0, n - 1, cents, j);
      assert prev[j].centroid == cs[j].centroid;
      assert prev[j].members == cs[j].members + Bucket(points, 0, n - 1, cents, j);
      assert Bucket(points, 0, n, cents, j) == Bucket(points, 0, n - 1, cents, j) + (if hit then [points[n - 1]] else []);
      BucketStep(cs[j], prev[j], r[j], Bucket(points, 0, n - 1, cents, j), Bucket(points, 0, n, cents, j), points[n - 1], hit);
    }
  }

  /** Every point has the dimension of every centroid, so no distance the
      engine computes can throw. */
  predicate Fits(cs: seq<Cluster>, points: seq<Point>) {
    forall i, j :: 0 <= i < |points| && 0 <= j < |cs| ==> points[i].Dim() == cs[j].centroid.Dim()
  }

  lemma FitsAssignable(cs: seq<Cluster>, points: seq<Point>)
    requires Fits(cs, points)
    ensures Assignable(points, Centroids(cs))
  {
    forall i, j | 0 <= i < |points| && 0 <= j < |cs|
      ensures Centroids(cs)[j].Dim() == points[i].Dim()
    {
      assert Centroids(cs)[j] == cs[j].centroid;
    }
  }

  /** Cluster j as an iteration leaves it before its recompute: its centroid,
      and as members exactly the points nearest to that centroid, in input
      order. */
  function Regrouped(cs: seq<Cluster>, points: seq<Point>, j: nat): (r: Cluster)
    requires j < |cs| && Fits(cs, points)
    ensures Recomputable(r)
  {
    FitsAssignable(cs, points);
    var b := Bucket(points, 0, |points|, Centroids(cs), j);
    assert forall t :: 0 <= t < |b| ==> b[t].Dim() == Centroids(cs)[j].Dim();
    Cluster(cs[j].centroid, b)
  }

  /** Steps 1 and 2 of an iteration: clear every cluster, then assign every
      point. */
  function Regroup(cs: seq<Cluster>, points: seq<Point>): (r: seq<Cluster>)
    requires Fits(cs, points)
    ensures |r| == |cs|
    ensures forall j :: 0 <= j < |cs| ==> r[j] == Regrouped(cs, points, j)
    ensures AllRecomputable(r)
  {
    FitsAssignable(cs, points);
    var cleared := ClearAll(cs);
    CentroidsOfClearAll(cs);
    var r := AssignPrefix(cleared, points, |points|);
    assert forall j :: 0 <= j < |cs| ==> r[j] == Regrouped(cs, points, j) by {
      forall j | 0 <= j < |cs|
        ensures r[j] == Regrouped(cs, points, j)
      {
        AssignPrefixBucket(cleared, points, |points|, j);
        assert r[j].members == [] + Bucket(points, 0, |points|, Centroids(cs), j);
      }
    }
    r
  }

  /** One Lloyd iteration as the sequential engine runs it. It keeps the
      number of clusters and every centroid's dimension, so the points stay
      comparable with the centroids from one iteration to the next. */
  function Iteration(cs: seq<Cluster>, points: seq<Point>, tol: real): (r: Recomputed)
    requires Fits(cs, points)
    ensures |r.clusters| == |cs|
    ensures Fits(r.clusters, points)
  {
    var grouped := Regroup(cs, points);
    var r := RecomputeSlice(grouped, 0, |grouped|, tol);
    assert Fits(r.clusters, points) by {
      forall i, j | 0 <= i < |points| && 0 <= j < |r.clusters|
        ensures points[i].Dim() == r.clusters[j].centroid.Dim()
      {
        assert r.clusters[j] == Recompute(grouped[j]);
      }
    }
    r
  }

  /** After an iteration every cluster holds exactly the points nearest to
      its old centroid and sits at their mean, and the iteration reports
      convergence exactly when no centroid moved further than the tolerance. */
  lemma IterationSpec(cs: seq<Cluster>, points: seq<Point>, tol: real)
    requires Fits(cs, points)
    ensures var r := Iteration(cs, points, tol);
      && (forall j :: 0 <= j < |cs| ==> r.clusters[j] == Recompute(Regrouped(cs, points, j)))
      && (r.converged <==> forall j :: 0 <= j < |cs| ==> Settled(Regrouped(cs, points, j), tol))
  {
  }

  /** The sequential engine's iteration as a loop step. The step is only
      ever applied to clusters the points can be compared with (Iteration
      keeps that true); on any other input it stops the loop unchanged. */
  function LloydStep(points: seq<Point>, tol: real): StepFn {
    cs => if Fits(cs, points) then Iteration(cs, points, tol) else Recomputed(cs, true)
  }

  /** The sequential engine's loop from the given initial clusters. */
  function Lloyd(cs: seq<Cluster>, points: seq<Point>, tol: real, maxIterations: nat): RunResult
    requires maxIterations >= 1
  {
    Loop(LloydStep(points, tol), cs, maxIterations)
  }

  /** Clearing before assigning makes every point a member of exactly one
      cluster: with at least one cluster, the members number |points|. */
  lemma RegroupCount(cs: seq<Cluster>, points: seq<Point>)
    requires |cs| > 0 && Fits(cs, points)
    ensures MemberCount(Regroup(cs, points)) == |points|
  {
    FitsAssignable(cs, points);
    var r := Regroup(cs, points);
    MemberCountOfBuckets(r, points, 0, |points|, Centroids(cs));
    BucketsPartition(points, 0, |points|, Centroids(cs));
  }

  /** The recompute keeps the members, so after every iteration the clusters
      again hold each point exactly once. */
  lemma IterationCount(cs: seq<Cluster>, points: seq<Point>, tol: real)
    requires |cs| > 0 && Fits(cs, points)
    ensures MemberCount(Iteration(cs, points, tol).clusters) == |points|
  {
    var g := Regroup(cs, points);
    MemberCountOfMembers(Iteration(cs, points, tol).clusters, g);
    RegroupCount(cs, points);
  }

  /** On clusters the points fit, the step is the iteration, and the
      points still fit afterwards; on any input it keeps the number of
      clusters. */
  lemma StepKeepsFit(points: seq<Point>, tol: real)
    ensures forall c :: Fits(c, points) ==> LloydStep(points, tol)(c) == Iteration(c, points, tol)
    ensures forall c :: Fits(c, points) ==> Fits(LloydStep(points, tol)(c).clusters, points)
    ensures forall c :: |LloydStep(points, tol)(c).clusters| == |c|
  {
  }

  /** Every iterate of the loop is again comparable with the points. */
  lemma IterateKeepsFit(cs: seq<Cluster>, points: seq<Point>, tol: real, n: nat)
    requires Fits(cs, points)
    ensures Fits(IterateN(LloydStep(points, tol), cs, n), points)
    ensures |IterateN(LloydStep(points, tol), cs, n)| == |cs|
  {
    StepKeepsFit(points, tol);
    IterateNKeeps(LloydStep(points, tol), c => Fits(c, points), cs, n);
    IterateNLength(LloydStep(points, tol), cs, n);
  }

  /** A run keeps k clusters, keeps them comparable with the points, and
      ends with every point a member of exactly one cluster. */
  lemma LloydOutcome(cs: seq<Cluster>, points: seq<Point>, tol: real, maxIterations: nat)
    requires maxIterations >= 1 && Fits(cs, points)
    ensures var r := Lloyd(cs, points, tol, maxIterations);
      && |r.clusters| == |cs|
      && Fits(r.clusters, points)
      && (|cs| > 0 ==> MemberCount(r.clusters) == |points|)
  {
    var step := LloydStep(points, tol);
    LoopCharacterized(step, cs, maxIterations);
    var r := Lloyd(cs, points, tol, maxIterations);
    var before := IterateN(step, cs, r.iterations - 1);
    IterateKeepsFit(cs, points, tol, r.iterations - 1);
    IterateKeepsFit(cs, points, tol, r.iterations);
    StepKeepsFit(points, tol);
    assert r.clusters == step(before).clusters;
    assert step(before) == Iteration(before, points, tol);
    if |cs| > 0 {
      IterationCount(before, points, tol);
    }
  }

  /** The centroids `initializeClusters` picks are input points, so with all
      points of one dimension every point is comparable with them. */
  lemma InitialClustersFit(points: seq<Point>, k: int, perm: seq<nat>)
    requires Uniform(points) && IsPermutation(perm, |points|)
    requires InitializeClusters(points, k, perm).Ok?
    ensures Fits(InitializeClusters(points, k, perm).value, points)
  {
    var cs := InitializeClusters(points, k, perm).value;
    forall i, j | 0 <= i < |points| && 0 <= j < |cs|
      ensures points[i].Dim() == cs[j].centroid.Dim()
    {
      assert cs[j].centroid == points[perm[j]];
    }
  }

  /** The nearest-cluster scan of `assignPointsToClusters`: `minDist` starts
      at "no candidate yet" (Java's MAX_VALUE sentinel) and a cluster replaces
      the candidate only when strictly closer. */
  method NearestCluster(p: Point, cs: seq<Cluster>) returns (nearest: int)
    requires SameDim(p, Centroids(cs))
    ensures nearest == Nearest(p, Centroids(cs))
  {
    ghost var cents := Centroids(cs);
    nearest := -1;
    var minDist: Option<real> := None;
    var j := 0;
    while j < |cs|
      invariant 0 <= j <= |cs|
      invariant nearest == Nearest(p, cents[..j])
      invariant minDist.None? <==> nearest == -1
      invariant minDist.Some? ==> 0 <= nearest < j && minDist.value == SqDist(p, cents[nearest])
    {
      assert cents[..j + 1][..j] == cents[..j];
      assert cents[..j + 1][j] == cents[j] == cs[j].centroid;
      var dist := Distance(p, cs[j].centroid);
      if minDist.None? || dist.value < minDist.value {
        minDist := Some(dist.value);
        nearest := j;
      }
      j := j + 1;
    }
    assert cents[..j] == cents;
  }

  /** One more point of the pass goes to its nearest cluster. */
  lemma AssignPrefixNext(cs: seq<Cluster>, points: seq<Point>, i: nat)
    requires i < |points| && Assignable(points, Centroids(cs))
    ensures var j, prev := Nearest(points[i], Centroids(cs)), AssignPrefix(cs, points, i);
      AssignPrefix(cs, points, i + 1) == if j == -1 then prev else prev[j := AddPoint(prev[j], points[i])]
  {
  }

  /** `assignPointsToClusters`: each point in turn is appended to its nearest
      cluster; with no clusters it is dropped. */
  method AssignPointsToClusters(cs: seq<Cluster>, points: seq<Point>) returns (r: seq<Cluster>)
    requires Assignable(points, Centroids(cs))
    ensures r == AssignPrefix(cs, points, |points|)
  {
    r := cs;
    var i := 0;
    while i < |points|
      invariant 0 <= i <= |points|
      invariant r == AssignPrefix(cs, points, i)
    {
      var nearest := NearestCluster(points[i], cs);
      AssignPrefixNext(cs, points, i);
      if nearest != -1 {
        r := r[nearest := AddPoint(r[nearest], points[i])];
      }
      i := i + 1;
    }
  }

  /** `recomputeCentroids`: recomputes every cluster in order and reports
      whether none of them moved further than the tolerance. */
  method RecomputeCentroids(cs: seq<Cluster>, tol: real) returns (r: Recomputed)
    requires AllRecomputable(cs)
    ensures r == RecomputeSlice(cs, 0, |cs|, tol)
  {
    var clusters := cs;
    var converged := true;
    var i := 0;
    while i < |cs|
      invariant 0 <= i <= |cs|
      invariant AllRecomputable(clusters)
      invariant RecomputedRange(cs, 0, i, tol, Recomputed(clusters, converged))
    {
      SliceStep(cs, 0, i + 1, tol, Recomputed(clusters, converged));
      var previous := clusters[i];
      var recomputed := RecomputeCentroid(previous);
      var c := recomputed.value;
      var movement := Distance(previous.centroid, c.centroid);
      if !(0.0 <= tol && movement.value <= tol * tol) {
        converged := false;
      }
      clusters := clusters[i := c];
      i := i + 1;
    }
    r := Recomputed(clusters, converged);
    RecomputedRangeUnique(cs, 0, |cs|, tol, r, RecomputeSlice(cs, 0, |cs|, tol));
  }

  /** `run`: random initialisation, then the loop, each iteration clearing,
      assigning and recomputing. The first assignment pass compares every
      point with every initial centroid, and maxIterations >= 1 makes that
      pass happen, so a dimension mismatch between them is reported before
      the loop. */
  method Run(config: Config, points: seq<Point>, perm: seq<nat>) returns (r: Result<RunResult>)
    requires config.Valid() && IsPermutation(perm, |points|)
    ensures r.Err? <==> config.k > |points| || !Fits(InitializeClusters(points, config.k, perm).value, points)
    ensures r.Err? && config.k > |points| ==> r.error == IndexOutOfBounds
    ensures r.Err? && config.k <= |points| ==> r.error == DimensionMismatch
    ensures r.Ok? ==> r.value == Lloyd(InitializeClusters(points, config.k, perm).value, points, config.tolerance, config.maxIterations)
  {
    var init := InitializeClusters(points, config.k, perm);
    if init.Err? {
      return Err(init.error);
    }
    if !Fits(init.value, points) {
      return Err(DimensionMismatch);
    }
    ghost var step := LloydStep(points, config.tolerance);
    ghost var result := Lloyd(init.value, points, config.tolerance, config.maxIterations);
    var clusters := init.value;
    var converged := false;
    var iteration := 0;
    while !converged && iteration < config.maxIterations
      invariant 0 <= iteration <= config.maxIterations
      invariant Fits(clusters, points)
      invariant !converged && iteration < config.maxIterations ==>
        LoopFrom(step, clusters, config.maxIterations, iteration) == result
      invariant converged || iteration == config.maxIterations ==>
        RunResult(clusters, iteration, converged) == result
      decreases config.maxIterations - iteration
    {
      var cleared := ClearAll(clusters);
      FitsAssignable(clusters, points);
      CentroidsOfClearAll(clusters);
      var grouped := AssignPointsToClusters(cleared, points);
      assert grouped == Regroup(clusters, points);
      var recomputed := RecomputeCentroids(grouped, config.tolerance);
      assert recomputed == step(clusters);
      clusters := recomputed.clusters;
      converged := recomputed.converged;
      iteration := iteration + 1;
    }
    return Ok(RunResult(clusters, iteration, converged));
  }

  /** `computeSSE`: the same nested loop as `SSECalculator.computeSSE`, over
      the clusters a run leaves. */
  method ComputeSSE(r: RunResult) returns (sse: Result<real>)
    ensures sse.Err? <==> !AllConsistent(r.clusters)
    ensures sse.Ok? ==> sse.value == Total(r.clusters)
  {
    sse := Sse.ComputeSSE(r.clusters);
  }
}
