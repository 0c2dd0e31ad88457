/** The parallel engine. It keeps its clusters between calls, may be given
    initial centroids before a run, and runs the same loop as the sequential
    engine with the assignment and the recompute done by the fork/join tasks.

    As written, each iteration clears the clusters, runs the assignment task
    and then drops the map it returns without merging it into the clusters,
    so the recompute only ever sees clusters without members. The model
    keeps that step (`IterationAsWritten`) and, beside it, the step with the
    merge in place (`IterationMerged`), which is proved to be the sequential
    engine's iteration. */
module ParallelEngine {
  import opened Wrappers
  import opened Points
  import opened Clusters
  import opened KMeansConfig
  import opened Sse
  import opened AssignTask
  import opened RecomputeTask
  import opened EngineLoop
  import opened SequentialEngine

  /** The engine's state: its configuration, the points and the current
      clusters. */
  datatype Engine = Engine(config: Config, points: seq<Point>, clusters: seq<Cluster>)

  /** The constructor starts without clusters. */
  function NewEngine(config: Config, points: seq<Point>): (r: Engine)
    ensures r.config == config && r.points == points && |r.clusters| == 0
  {
    Engine(config, points, [])
  }

  /** The deep-copy loop of `setInitialClusters`: for each cluster in order, a
      fresh cluster at a copy of its centroid. Copying a centroid without
      coordinates makes the `Point` constructor throw, and the copies made
      before it stay. */
  function CopyCentroids(init: seq<Cluster>): (r: Step<seq<Cluster>>)
    ensures r.thrown.None? <==> forall i :: 0 <= i < |init| ==> init[i].centroid.Valid()
    ensures r.thrown.None? ==> |r.state| == |init|
    ensures r.thrown.Some? ==> r.thrown.value == EmptyPoint && |r.state| < |init| && !init[|r.state|].centroid.Valid()
    ensures |r.state| <= |init|
    ensures forall i :: 0 <= i < |r.state| ==> init[i].centroid.Valid() && r.state[i] == Cluster(init[i].centroid, [])
  {
    if |init| == 0 then Step([], None)
    else
      match NewPoint(GetCoordinates(init[0].centroid))
      case Err(e) => Step([], Some(e))
      case Ok(p) =>
        CopyRoundTrip(init[0].centroid);
        var rest := CopyCentroids(init[1..]);
        assert forall i :: 1 <= i < |init| ==> init[i] == init[1..][i - 1];
        Step([NewCluster(p)] + rest.state, rest.thrown)
  }

  /** `setInitialClusters`: a missing list, or one whose size is not k, is
      rejected before anything changes; otherwise the current clusters are
      replaced by copies of the given centroids without members. */
  function SetInitialClusters(e: Engine, init: Option<seq<Cluster>>): (r: Step<Engine>)
    ensures r.state.config == e.config && r.state.points == e.points
    ensures init.None? || |init.value| != e.config.k ==> r == Step(e, Some(BadInitialClusters))
    ensures init.Some? && |init.value| == e.config.k ==>
      var copied := CopyCentroids(init.value);
      r == Step(e.(clusters := copied.state), copied.thrown)
  {
    if init.None? || |init.value| != e.config.k then Step(e, Some(BadInitialClusters))
    else
      var copied := CopyCentroids(init.value);
      Step(e.(clusters := copied.state), copied.thrown)
  }

  /** Given centroids that all have coordinates, the engine ends up with
      exactly those centroids, in order, and no members: the clusters
      `ClearAll` makes of the given ones. */
  lemma SetInitialClustersClears(e: Engine, init: seq<Cluster>)
    requires |init| == e.config.k
    requires forall i :: 0 <= i < |init| ==> init[i].centroid.Valid()
    ensures SetInitialClusters(e, Some(init)) == Step(e.(clusters := ClearAll(init)), None)
  {
    var copied := CopyCentroids(init);
    assert copied.state == ClearAll(init);
  }

  /** The clusters a run starts from: the current ones, or, when there are
      none, `initializeClusters` with the shuffle given by perm. */
  function StartClusters(e: Engine, perm: seq<nat>): (r: Result<seq<Cluster>>)
    requires IsPermutation(perm, |e.points|)
    ensures |e.clusters| > 0 ==> r == Ok(e.clusters)
    ensures |e.clusters| == 0 ==> r == InitializeClusters(e.points, e.config.k, perm)
  {
    if |e.clusters| > 0 then Ok(e.clusters) else InitializeClusters(e.points, e.config.k, perm)
  }

  /** One iteration as the engine runs it: clear, run the assignment task
      (whose map is then dropped), recompute with the recompute task. */
  function IterationAsWritten(cs: seq<Cluster>, points: seq<Point>, tol: real): (r: Recomputed)
    requires Fits(cs, points)
    ensures |r.clusters| == |cs|
  {
    var cleared := ClearAll(cs);
    FitsAssignable(cs, points);
    CentroidsOfClearAll(cs);
    var dropped := Compute(points, 0, |points|, Centroids(cleared));
    assert AllRecomputable(cleared);
    RecomputeAll(cleared, tol)
  }

  /** The iteration with the assignment map merged into the cleared clusters
      before the recompute, as `mergeIntoClusters` is meant to be used. */
  function IterationMerged(cs: seq<Cluster>, points: seq<Point>, tol: real): (r: Recomputed)
    requires Fits(cs, points)
    ensures |r.clusters| == |cs|
    ensures r == RecomputeAll(Regroup(cs, points), tol)
  {
    var cleared := ClearAll(cs);
    FitsAssignable(cs, points);
    CentroidsOfClearAll(cs);
    var merged := MergeIntoClusters(Compute(points, 0, |points|, Centroids(cleared)), cleared);
    assert merged == Regroup(cs, points) by {
      forall j | 0 <= j < |cs|
        ensures merged[j] == Regroup(cs, points)[j]
      {
        assert merged[j].members == [] + Bucket(points, 0, |points|, Centroids(cs), j);
      }
    }
    RecomputeAll(merged, tol)
  }

  /** The engine's iteration as a loop step; a step on clusters the points
      cannot be compared with never happens in a run, because `Run` reports
      the distance error first. */
  function StepAsWritten(points: seq<Point>, tol: real): StepFn {
    cs => if Fits(cs, points) then IterationAsWritten(cs, points, tol) else Recomputed(cs, true)
  }

  function StepMerged(points: seq<Point>, tol: real): StepFn {
    cs => if Fits(cs, points) then IterationMerged(cs, points, tol) else Recomputed(cs, true)
  }

  /** `run` with a given step: pick the starting clusters, then loop. The
      first iteration's assignment task computes the distance from every
      point to every centroid, so it throws exactly when some point and some
      centroid differ in dimension; the clusters a step leaves keep their
      centroids' dimensions, so no later iteration throws. */
  function RunWith(step: StepFn, e: Engine, perm: seq<nat>): (r: Result<RunResult>)
    requires e.config.Valid() && IsPermutation(perm, |e.points|)
    ensures r.Err? <==> StartClusters(e, perm).Err? || !Fits(StartClusters(e, perm).value, e.points)
    ensures r.Err? && StartClusters(e, perm).Err? ==> r.error == IndexOutOfBounds
    ensures r.Err? && StartClusters(e, perm).Ok? ==> r.error == DimensionMismatch
  {
    var start :- StartClusters(e, perm);
    if !Fits(start, e.points) then Err(DimensionMismatch)
    else Ok(Loop(step, start, e.config.maxIterations))
  }

  /** `run` as written. */
  function Run(e: Engine, perm: seq<nat>): (r: Result<RunResult>)
    requires e.config.Valid() && IsPermutation(perm, |e.points|)
    ensures r.Err? <==> StartClusters(e, perm).Err? || !Fits(StartClusters(e, perm).value, e.points)
  {
    RunWith(StepAsWritten(e.points, e.config.tolerance), e, perm)
  }

  /** `run` with the merge in place. */
  function RunMerged(e: Engine, perm: seq<nat>): (r: Result<RunResult>)
    requires e.config.Valid() && IsPermutation(perm, |e.points|)
    ensures r.Err? <==> StartClusters(e, perm).Err? || !Fits(StartClusters(e, perm).value, e.points)
  {
    RunWith(StepMerged(e.points, e.config.tolerance), e, perm)
  }

  /** A fresh engine over points of one dimension fails only when k exceeds
      the number of points. */
  lemma FreshRunFails(config: Config, points: seq<Point>, perm: seq<nat>)
    requires config.Valid() && Uniform(points) && IsPermutation(perm, |points|)
    ensures Run(NewEngine(config, points), perm).Err? <==> config.k > |points|
    ensures RunMerged(NewEngine(config, points), perm).Err? <==> config.k > |points|
  {
    if config.k <= |points| {
      InitialClustersFit(points, config.k, perm);
    }
  }

  /** As written, an iteration leaves every cluster without members and at
      its old centroid, and reports convergence. */
  lemma IterationAsWrittenEmpties(cs: seq<Cluster>, points: seq<Point>, tol: real)
    requires Fits(cs, points) && 0.0 <= tol
    ensures IterationAsWritten(cs, points, tol) == Recomputed(ClearAll(cs), true)
  {
    EmptyClustersConverge(RecomputeTask.Threshold, ClearAll(cs), tol);
  }

  /** As written, a successful run stops after one iteration whatever the
      points, reports convergence, leaves the starting centroids where they
      were with no members, and so reports an objective of 0. */
  lemma RunAsWrittenDiscards(e: Engine, perm: seq<nat>)
    requires e.config.Valid() && IsPermutation(perm, |e.points|)
    requires Run(e, perm).Ok?
    ensures var r := Run(e, perm).value;
      && r.iterations == 1 && r.converged
      && r.clusters == ClearAll(StartClusters(e, perm).value)
      && MemberCount(r.clusters) == 0
      && AllConsistent(r.clusters) && Total(r.clusters) == 0.0
  {
    var start := StartClusters(e, perm).value;
    var step := StepAsWritten(e.points, e.config.tolerance);
    forall c
      ensures step(c).converged
    {
      if Fits(c, e.points) {
        IterationAsWrittenEmpties(c, e.points, e.config.tolerance);
      }
    }
    AlwaysConvergedRunsOnce(step, start, e.config.maxIterations);
    IterationAsWrittenEmpties(start, e.points, e.config.tolerance);
    var r := Run(e, perm).value;
    assert r.clusters == ClearAll(start);
    NoMembersCount(r.clusters);
    TotalNoMembers(r.clusters);
  }

  /** Clusters without members hold no members in total. */
  lemma {:induction false} NoMembersCount(cs: seq<Cluster>)
    requires forall j :: 0 <= j < |cs| ==> |cs[j].members| == 0
    ensures MemberCount(cs) == 0
  {
    if |cs| > 0 {
      NoMembersCount(cs[..|cs| - 1]);
    }
  }

  /** With the merge in place, an iteration is exactly the sequential
      engine's iteration: the split assignment gives every cluster the
      points nearest to it in input order, and the split recompute gives
      the leaf loop's clusters and flag. */
  lemma MergedIsSequential(cs: seq<Cluster>, points: seq<Point>, tol: real)
    requires Fits(cs, points)
    ensures IterationMerged(cs, points, tol) == Iteration(cs, points, tol)
  {
    var g := Regroup(cs, points);
    assert IterationMerged(cs, points, tol) == RecomputeRange(RecomputeTask.Threshold, g, 0, |g|, tol);
    RangeEqualsSlice(RecomputeTask.Threshold, g, 0, |g|, tol);
  }

  lemma StepsAgree(points: seq<Point>, tol: real)
    ensures forall c :: StepMerged(points, tol)(c) == LloydStep(points, tol)(c)
  {
    forall c
      ensures StepMerged(points, tol)(c) == LloydStep(points, tol)(c)
    {
      if Fits(c, points) {
        MergedIsSequential(c, points, tol);
      }
    }
  }

  /** With the merge in place, a run of the parallel engine ends exactly as
      the sequential engine's run from the same starting clusters: same
      clusters, same number of iterations, same convergence flag. */
  lemma MergedRunIsSequential(e: Engine, perm: seq<nat>)
    requires e.config.Valid() && IsPermutation(perm, |e.points|)
    requires RunMerged(e, perm).Ok?
    ensures RunMerged(e, perm).value == Lloyd(StartClusters(e, perm).value, e.points, e.config.tolerance, e.config.maxIterations)
  {
    StepsAgree(e.points, e.config.tolerance);
    LoopFromCongruent(StepMerged(e.points, e.config.tolerance), LloydStep(e.points, e.config.tolerance),
      StartClusters(e, perm).value, e.config.maxIterations, 0);
  }

  /** With the merge in place, a run from k > 0 clusters ends with every
      point a member of exactly one cluster. */
  lemma MergedRunCountsEveryPoint(e: Engine, perm: seq<nat>)
    requires e.config.Valid() && IsPermutation(perm, |e.points|)
    requires RunMerged(e, perm).Ok? && |StartClusters(e, perm).value| > 0
    ensures MemberCount(RunMerged(e, perm).value.clusters) == |e.points|
  {
    MergedRunIsSequential(e, perm);
    LloydOutcome(StartClusters(e, perm).value, e.points, e.config.tolerance, e.config.maxIterations);
  }

  /** `computeSSE`: the same nested loop as `SSECalculator.computeSSE`, over
      the engine's own clusters. */
  method ComputeSSE(e: Engine) returns (r: Result<real>)
    ensures r.Err? <==> !AllConsistent(e.clusters)
    ensures r.Ok? ==> r.value == Total(e.clusters)
  {
    r := Sse.ComputeSSE(e.clusters);
  }
}
