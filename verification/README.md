# K-Means clustering, modelled in Dafny

This project models the core of a Java K-Means library and proves properties
of the model. The library has:

- points, clusters and a configuration (k, maxIterations, tolerance);
- the Euclidean distance and the sum of squared errors (SSE);
- a sequential Lloyd engine;
- a parallel engine built from two fork/join tasks: point assignment with a
  local-reduce-merge map, and centroid recompute with an AND of convergence
  flags;
- k-means++ seeding;
- a multi-start driver that keeps the restart with the lowest SSE.

Modelling choices:

- Coordinates are `real`.
- Distances are squared distances. `distance` takes a square root that every
  caller either compares (the square root is monotone) or squares again.
  The movement test `movement > tolerance` is therefore
  `!(0 <= tol && sqDist <= tol * tol)`: a distance is never negative, so a
  negative tolerance is always exceeded.
- Java objects become immutable datatypes. A method that mutates its object
  becomes a function from the old value to the new one.
- A method that throws returns `Result` (`Err(e)` names the exception).
  Where a throw leaves a partly updated object behind, it returns `Step`
  (state plus the exception, if any).
- The random sources and the clock are inputs:
  - the shuffle of the points is a permutation `perm`;
  - `nextInt` is `firstIndex`;
  - the `nextDouble` draws of k-means++ are `draws`;
  - each restart's elapsed milliseconds are `elapsed` (datatype
    `MultiStart.Chance`).
- The fork/join tasks become plain recursion over index ranges. Their
  halves touch disjoint indices, and the results are combined left half
  first, as the joins combine them.
- The driver loop both engines share is `EngineLoop.Loop`. It is
  characterised against a reference without early stop, `IterateN`.

The parallel engine, as written, drops the assignment map every iteration.
"## Findings" describes this. The model keeps that behaviour
(`ParallelEngine.Run`), and keeps beside it the run with the merge in place
(`ParallelEngine.RunMerged`). The multi-start driver calls the run as written
(`MultiStart.Restart`); `MultiStart.RestartMerged` is the same driver with the
merged run.

Where the Java source does not compile, the model follows the evident
intent. `MultiStartKMeans.runSequential` calls `setInitialClusters` on a
`KMeansSequential`, which has no such method. The model keeps the k-means++
call, because its argument checks can throw. The sequential engine then
draws its own initial centroids, as its `run` always calls
`initializeClusters`.

## Model

| member | source | states |
|---|---|---|
| Points.NewPoint | K-Means/src/model/Point.java:12-17 | a point without coordinates is rejected; otherwise the point has exactly the given coordinates |
| Points.GetCoordinate | K-Means/src/model/Point.java:19-21 | an index inside the dimension reads that coordinate; any other index is an out-of-bounds error |
| Points.SetCoordinate | K-Means/src/model/Point.java:24-26 | an index inside the dimension changes that coordinate only and keeps the dimension; any other index is an out-of-bounds error |
| Points.GetCoordinates | K-Means/src/model/Point.java:32-34 | the copy has the point's dimension and agrees with `GetCoordinate` at every index |
| Points.CopyRoundTrip | K-Means/src/model/Point.java:12-17 | building a point from a point's coordinate copy gives back that point |
| DistanceUtils.Distance | K-Means/src/util/DistanceUtils.java:8-20 | an error exactly when the dimensions differ; otherwise the sum of the squared coordinate differences |
| DistanceUtils.SqDistSymmetric | K-Means/src/util/DistanceUtils.java:8-20 | the distance from a to b equals the distance from b to a |
| DistanceUtils.SqDistSelf | K-Means/src/util/DistanceUtils.java:8-20 | every point is at distance 0 from itself |
| Clusters.NewCluster | K-Means/src/model/Cluster.java:11-14 | a new cluster sits at the given centroid and has no members |
| Clusters.AddPoint | K-Means/src/model/Cluster.java:16-18 | the point is appended after the existing members, which stay in order; the centroid is unchanged |
| Clusters.ClearPoints | K-Means/src/model/Cluster.java:20-22 | no members remain and the centroid is unchanged |
| Clusters.SetCentroid | K-Means/src/model/Cluster.java:30-32 | the centroid is replaced and the members are kept |
| Clusters.Recompute | K-Means/src/model/Cluster.java:38-57 | on members with at least the centroid's dimension: a cluster without members is unchanged; otherwise every new coordinate times the member count is that coordinate's sum over the members; members and dimension are kept |
| Clusters.TryRecompute | K-Means/src/model/Cluster.java:38-57 | throws out of bounds exactly when some member has fewer coordinates than the centroid; otherwise gives the mean `Recompute` defines |
| Clusters.AddCoordinates | K-Means/src/model/Cluster.java:47-49 | adding one member's coordinates throws out of bounds exactly when the member is shorter than the sums; otherwise each sum grows by that member's coordinate |
| Clusters.RecomputeCentroid | K-Means/src/model/Cluster.java:38-57 | the summing and dividing loops throw or compute the mean exactly as `TryRecompute` defines |
| Clusters.RecomputeIdentical | K-Means/src/model/Cluster.java:38-57 | when every member equals one point of the centroid's dimension, the new centroid is that point |
| KMeansConfig.NewConfig | K-Means/src/core/KMeansConfig.java:10-18 | accepted exactly when k > 0, maxIterations > 0 and tolerance >= 0, with the exception of the first failing check; an accepted configuration stores the three values |
| KMeansConfig.SetK | K-Means/src/core/KMeansConfig.java:34-37 | k <= 0 throws and leaves the configuration as it was; otherwise only k changes; validity is preserved |
| KMeansConfig.SetMaxIterations | K-Means/src/core/KMeansConfig.java:39-42 | maxIterations <= 0 throws and leaves the configuration as it was; otherwise only maxIterations changes; validity is preserved |
| KMeansConfig.SetTolerance | K-Means/src/core/KMeansConfig.java:44-47 | a negative tolerance throws and leaves the configuration as it was; otherwise only the tolerance changes; validity is preserved |
| KMeansConfig.SettersAgreeWithConstructor | K-Means/src/core/KMeansConfig.java:10-47 | the three setters applied to a valid configuration succeed exactly when the constructor accepts the same values, and then give the configuration the constructor builds |
| Sse.ComputeSSE | K-Means/src/evaluation/SSECalculator.java:12-24 | an error exactly when some member's dimension differs from its centroid's; otherwise the total over clusters of the squared member-to-centroid distances |
| Sse.TotalConcat | K-Means/src/evaluation/SSECalculator.java:12-24 | the SSE of two cluster lists together is the sum of their SSEs |
| Sse.TotalNoMembers | K-Means/src/evaluation/SSECalculator.java:12-24 | clusters without members have SSE 0 |
| Sse.TotalAtCentroids | K-Means/src/evaluation/SSECalculator.java:12-24 | clusters whose members all sit at their centroid have SSE 0 |
| AssignTask.Nearest | K-Means/src/core/KMeansAssignTask.java:39-50 | the scan finds no cluster (-1) exactly when there are no centroids; otherwise it finds a valid index |
| AssignTask.NearestIsMin | K-Means/src/core/KMeansAssignTask.java:39-50 | the chosen centroid is at least as close as every centroid and strictly closer than every earlier one, so ties go to the lowest index |
| AssignTask.AssignLeaf | K-Means/src/core/KMeansAssignTask.java:33-56 | for every cluster index, the leaf's list is the range's points whose nearest centroid has that index, in order; no key maps to an empty list |
| AssignTask.LeafKeys | K-Means/src/core/KMeansAssignTask.java:53 | a leaf's keys are cluster indices or -1, and -1 appears only when there are no centroids |
| AssignTask.Merge | K-Means/src/core/KMeansAssignTask.java:75-85 | the merged keys are the union of both sides' keys, and each list is the left list followed by the right list |
| AssignTask.MergeAssociative | K-Means/src/core/KMeansAssignTask.java:75-85 | merging is associative |
| AssignTask.MergeSplit | K-Means/src/core/KMeansAssignTask.java:57-69 | merging the maps of the two halves of a range gives the map of the whole range |
| AssignTask.ComputeWith | K-Means/src/core/KMeansAssignTask.java:32-70 | whatever the leaf size, the split-and-merge task returns the same map as a single leaf over the range |
| AssignTask.Compute | K-Means/src/core/KMeansAssignTask.java:18-70 | with the task's leaf size of 1000, each cluster index maps to the points nearest to it, in input order |
| AssignTask.BucketsPartition | K-Means/src/core/KMeansAssignTask.java:32-70 | with at least one centroid, the per-cluster lists of a range hold exactly as many points as the range |
| AssignTask.MergeIntoClusters | K-Means/src/core/KMeansAssignTask.java:91-103 | cluster j keeps its centroid and gains the list mapped to j after its members; keys outside the cluster indices are ignored |
| AssignTask.MergeIntoClustersCount | K-Means/src/core/KMeansAssignTask.java:91-103 | the member total grows by the sizes of the lists at valid cluster indices |
| AssignTask.AssignAddsEveryPoint | K-Means/src/core/KMeansAssignTask.java:32-103 | assigning the whole point list and merging the map into the clusters adds every point exactly once |
| RecomputeTask.RecomputeSlice | K-Means/src/core/RecomputeCentroidsTask.java:29-40 | a leaf recomputes each cluster of its range and no other; its flag holds exactly when no cluster of the range moved beyond the tolerance (never, for a negative tolerance) |
| RecomputeTask.RecomputeRange | K-Means/src/core/RecomputeCentroidsTask.java:28-50 | the split task has the same effect on its range, and its flag is the AND over the range |
| RecomputeTask.RecomputeAll | K-Means/src/core/RecomputeCentroidsTask.java:14-50 | the task over all clusters with the leaf size of 2 recomputes every cluster, and reports convergence exactly when none moved too far |
| RecomputeTask.RecomputedRangeUnique | K-Means/src/core/RecomputeCentroidsTask.java:28-50 | the effect on a range determines the resulting clusters and the flag |
| RecomputeTask.RangeEqualsSlice | K-Means/src/core/RecomputeCentroidsTask.java:41-49 | the split tree gives the same result as one leaf over the whole range, whatever the leaf size |
| RecomputeTask.EmptyClustersConverge | K-Means/src/core/RecomputeCentroidsTask.java:28-50 | on clusters without members and with a non-negative tolerance, the task changes nothing and reports convergence |
| RecomputeTask.RecomputeIdempotent | K-Means/src/model/Cluster.java:38-57 | recomputing a recomputed cluster changes nothing |
| RecomputeTask.SecondRunConverges | K-Means/src/core/RecomputeCentroidsTask.java:28-50 | with a non-negative tolerance, running the task a second time on its own output leaves the clusters as they are and reports convergence |
| EngineLoop.LoopCharacterized | K-Means/src/core/KMeansSequential.java:30-44 | the loop runs at least once and at most maxIterations times; it stops right after the first converged step, and otherwise runs maxIterations times; its clusters are the reference's clusters after that many steps |
| EngineLoop.AlwaysConvergedRunsOnce | K-Means/src/core/KMeansSequential.java:30-44 | a step that always reports convergence ends the loop after one iteration |
| EngineLoop.LoopFromCongruent | K-Means/src/core/KMeansParallel.java:37-51 | two steps that agree on every input give identical runs |
| SequentialEngine.InitializeClusters | K-Means/src/core/KMeansSequential.java:52-60 | k beyond the number of points throws out of bounds; otherwise cluster i is a new cluster at the point the shuffle put in position i |
| SequentialEngine.InitialCentroidsDistinctPositions | K-Means/src/core/KMeansSequential.java:52-60 | two different initial clusters start from points at two different input positions |
| SequentialEngine.ClearAll | K-Means/src/core/KMeansSequential.java:35 | every cluster keeps its centroid and loses its members |
| SequentialEngine.NearestCluster | K-Means/src/core/KMeansSequential.java:67-76 | the scan with the "no candidate yet" start and the strict comparison selects the same cluster as the assignment task's `Nearest` |
| SequentialEngine.AssignPointsToClusters | K-Means/src/core/KMeansSequential.java:65-82 | the loop adds the points one by one to their nearest clusters, as the prefix model `AssignPrefix` defines |
| SequentialEngine.AssignPrefixBucket | K-Means/src/core/KMeansSequential.java:65-82 | after the loop, each cluster holds its earlier members followed by exactly the points nearest to it, in input order |
| SequentialEngine.RecomputeCentroids | K-Means/src/core/KMeansSequential.java:87-100 | the loop over all clusters has the leaf task's effect over the whole range |
| SequentialEngine.IterationSpec | K-Means/src/core/KMeansSequential.java:33-44 | one iteration leaves cluster j as the mean of the points nearest to its centroid, and reports convergence exactly when no such mean moved beyond the tolerance |
| SequentialEngine.IterationCount | K-Means/src/core/KMeansSequential.java:33-44 | with at least one cluster, after an iteration the clusters hold every point exactly once |
| SequentialEngine.LloydOutcome | K-Means/src/core/KMeansSequential.java:27-47 | a run keeps the number of clusters and their dimensions, and with at least one cluster its clusters hold every point exactly once |
| SequentialEngine.InitialClustersFit | K-Means/src/core/KMeansSequential.java:52-60 | when all points share one dimension, the initial centroids are comparable with every point |
| SequentialEngine.Run | K-Means/src/core/KMeansSequential.java:27-47 | an error exactly when k exceeds the points (out of bounds) or the first assignment compares points and centroids of different dimensions; otherwise the shared loop over the sequential iteration |
| SequentialEngine.ComputeSSE | K-Means/src/core/KMeansSequential.java:105-115 | an error exactly when a member and its centroid differ in dimension; otherwise the SSE of the run's clusters |
| ParallelEngine.NewEngine | K-Means/src/core/KMeansParallel.java:23-28 | a new engine keeps its configuration and points and has no clusters |
| ParallelEngine.CopyCentroids | K-Means/src/core/KMeansParallel.java:74-79 | the copies are member-less clusters at the given centroids, in order; a centroid without coordinates throws and stops the copying, and the copies made before it stay |
| ParallelEngine.SetInitialClusters | K-Means/src/core/KMeansParallel.java:70-80 | a missing list or one whose size is not k is rejected before anything changes; otherwise the clusters are replaced by the copies |
| ParallelEngine.SetInitialClustersClears | K-Means/src/core/KMeansParallel.java:70-80 | given k centroids that all have coordinates, the engine ends with exactly those centroids, in order, and no members |
| ParallelEngine.StartClusters | K-Means/src/core/KMeansParallel.java:31-35 | a run keeps the clusters it was given, and only an engine without clusters draws its own |
| ParallelEngine.RunWith | K-Means/src/core/KMeansParallel.java:31-54 | an error exactly when drawing initial clusters fails (out of bounds) or the first assignment meets a dimension mismatch |
| ParallelEngine.FreshRunFails | K-Means/src/core/KMeansParallel.java:31-54 | for a fresh engine over points of one dimension, both runs fail exactly when k exceeds the number of points |
| ParallelEngine.IterationAsWrittenEmpties | K-Means/src/core/KMeansParallel.java:40-51 | with a non-negative tolerance, the iteration as written leaves the clusters cleared and reports convergence |
| ParallelEngine.RunAsWrittenDiscards | K-Means/src/core/KMeansParallel.java:40-51 | every successful run as written stops after one iteration with every cluster empty and SSE 0 |
| ParallelEngine.MergedIsSequential | K-Means/src/core/KMeansParallel.java:43-48 | with the map merged, the parallel iteration equals the sequential engine's iteration |
| ParallelEngine.MergedRunIsSequential | K-Means/src/core/KMeansParallel.java:31-54 | with the map merged, a parallel run equals the sequential loop from the same starting clusters |
| ParallelEngine.MergedRunCountsEveryPoint | K-Means/src/core/KMeansParallel.java:31-54 | with the map merged and at least one cluster, the final clusters hold every point exactly once |
| ParallelEngine.ComputeSSE | K-Means/src/core/KMeansParallel.java:82-92 | an error exactly when a member and its centroid differ in dimension; otherwise the SSE of the engine's clusters |
| KMeansPlusPlus.MinSqDistIsMin | K-Means/src/bonus/KMeansPlusPlusInitializer.java:46-61 | a point's weight is the smallest squared distance to any chosen centroid, and some centroid attains it |
| KMeansPlusPlus.MinSqDistZero | K-Means/src/bonus/KMeansPlusPlusInitializer.java:46-61 | a point with positive weight is not one of the chosen centroids |
| KMeansPlusPlus.MinDistanceTo | K-Means/src/bonus/KMeansPlusPlusInitializer.java:47-57 | the inner loop throws exactly when some centroid differs in dimension from the point; otherwise it returns the point's weight |
| KMeansPlusPlus.Weigh | K-Means/src/bonus/KMeansPlusPlusInitializer.java:43-61 | the weighing loop throws exactly when some point and centroid differ in dimension; otherwise it returns the weight of every point and their sum |
| KMeansPlusPlus.WeightsNonNegative | K-Means/src/bonus/KMeansPlusPlusInitializer.java:43-61 | every weight is non-negative |
| KMeansPlusPlus.SelectIndexSpec | K-Means/src/bonus/KMeansPlusPlusInitializer.java:64-77 | the walk picks the first index whose running sum reaches the target; when none does, it takes the last index |
| KMeansPlusPlus.Walk | K-Means/src/bonus/KMeansPlusPlusInitializer.java:65-77 | the cumulative loop with its fallback picks the index `SelectIndex` defines |
| KMeansPlusPlus.TargetBounds | K-Means/src/bonus/KMeansPlusPlusInitializer.java:64 | with a draw in [0, 1) the target lies between 0 and the total weight, and it is positive when the draw and the total are |
| KMeansPlusPlus.FallbackUnreachable | K-Means/src/bonus/KMeansPlusPlusInitializer.java:75-77 | with non-negative weights and a draw in [0, 1), the walk always ends at an index whose running sum reaches the target, so the fallback is never used |
| KMeansPlusPlus.SelectedWeightPositive | K-Means/src/bonus/KMeansPlusPlusInitializer.java:63-73 | with a draw in (0, 1) and a positive total, the chosen point has positive weight |
| KMeansPlusPlus.ZeroDrawPicksFirst | K-Means/src/bonus/KMeansPlusPlusInitializer.java:63-73 | a draw of 0 picks the first point |
| KMeansPlusPlus.SelectNextCentroid | K-Means/src/bonus/KMeansPlusPlusInitializer.java:41-78 | throws exactly when some point and centroid differ in dimension; otherwise returns the point at the index the weighted walk picks |
| KMeansPlusPlus.NextIndexIsNew | K-Means/src/bonus/KMeansPlusPlusInitializer.java:41-78 | with a draw in (0, 1) and a positive total weight, the next centroid differs from every centroid already chosen |
| KMeansPlusPlus.InitializeCentroids | K-Means/src/bonus/KMeansPlusPlusInitializer.java:15-39 | no points, k <= 0 and k beyond the points are rejected in that order; with two or more centroids, mixed dimensions throw; otherwise exactly k centroids, the first being the point at the first index |
| KMeansPlusPlus.CentroidsArePoints | K-Means/src/bonus/KMeansPlusPlusInitializer.java:15-39 | every seeded centroid is one of the input points |
| KMeansPlusPlus.SeedsDistinct | K-Means/src/bonus/KMeansPlusPlusInitializer.java:33-36 | with draws in (0, 1) and no two input points at distance 0, the seeded centroids are pairwise different |
| KMeansPlusPlus.SeedOnce | K-Means/src/bonus/KMeansPlusPlusInitializer.java:33-36 | one round of the loop extends the first i seeded centroids to the first i + 1, or throws exactly when the points do not share a dimension |
| KMeansPlusPlus.Seed | K-Means/src/bonus/KMeansPlusPlusInitializer.java:26-38 | the loop throws exactly when two or more centroids are wanted and the points do not share a dimension; otherwise it returns the k seeded centroids |
| KMeansPlusPlus.InitializeCentroidsLoop | K-Means/src/bonus/KMeansPlusPlusInitializer.java:15-39 | the argument checks followed by the loop return what `InitializeCentroids` defines, errors included |
| KMeansPlusPlus.InitializeClusters | K-Means/src/bonus/KMeansPlusPlusInitializer.java:80-89 | throws exactly when the seeding throws, with the same exception; otherwise one member-less cluster per seeded centroid, in order |
| MultiStart.New | K-Means/src/bonus/MultiStartKMeans.java:24-41 | a missing configuration, then an empty point list, then a non-positive restart count are rejected; otherwise the driver stores its arguments |
| MultiStart.ParallelStart | K-Means/src/bonus/MultiStartKMeans.java:112-119 | the engine `runParallel` builds has the driver's configuration and points, and with k-means++ exactly k initial clusters |
| MultiStart.Restart | K-Means/src/bonus/MultiStartKMeans.java:90-123 | without the parallel flag, the sequential restart; with it, a successful restart leaves clusters without members, consistent in dimension, with SSE 0, because the parallel run as written drops every assignment |
| MultiStart.RestartMerged | K-Means/src/bonus/MultiStartKMeans.java:90-123 | the corrected driver agrees with `Restart` without the parallel flag and differs only in merging the assignment on the parallel engine |
| MultiStart.Outcome | K-Means/src/bonus/MultiStartKMeans.java:58-68 | a successful restart is scored with its clusters and a non-negative SSE; on the parallel engine that SSE is 0 and the clusters are empty |
| MultiStart.RestartShape | K-Means/src/bonus/MultiStartKMeans.java:99-110 | every successful sequential restart leaves k clusters, comparable with the points, that hold every point exactly once |
| MultiStart.RestartMergedShape | K-Means/src/bonus/MultiStartKMeans.java:90-123 | with the merge in place, every successful restart on either engine leaves k clusters, comparable with the points, that hold every point exactly once |
| MultiStart.RunRestart | K-Means/src/bonus/MultiStartKMeans.java:90-128 | running one restart and computing its SSE gives the outcome `Outcome` defines, errors included |
| MultiStart.CopyClusters | K-Means/src/bonus/MultiStartKMeans.java:131-141 | the deep copy fails exactly when a centroid or member has no coordinates; otherwise it equals its input |
| MultiStart.CollectSpec | K-Means/src/bonus/MultiStartKMeans.java:54-80 | the restarts succeed together exactly when each one does; otherwise the first failing restart's exception is the result |
| MultiStart.Consider | K-Means/src/bonus/MultiStartKMeans.java:65-79 | a restart replaces the best only when its SSE is strictly lower, so the earliest of equal scores stays; the elapsed time is added to the total |
| MultiStart.TracksReports | K-Means/src/bonus/MultiStartKMeans.java:75-87 | after at least one restart, the best found is at its 1-based restart number, has the lowest SSE, comes first among equal SSEs, and is what the result holds |
| MultiStart.Run | K-Means/src/bonus/MultiStartKMeans.java:44-88 | the first failing restart's exception propagates; otherwise the result holds the earliest restart with the lowest SSE, its clusters and SSE, its 1-based number, and the sum of all elapsed times; with the parallel flag that is always restart 1, with SSE 0 and no members |
| MultiStart.ParallelReportsFirst | K-Means/src/bonus/MultiStartKMeans.java:54-123 | with the parallel flag, every restart scores 0, so the strict comparison keeps restart 1, reported with SSE 0 and clusters without members |
| MultiStart.ParallelOutcomeEmpty | K-Means/src/bonus/MultiStartKMeans.java:61-68 | with the parallel flag, each successful restart's clusters are empty and its SSE is 0 |
| MultiStart.MatchesUnique | K-Means/src/bonus/MultiStartKMeans.java:54-68 | the restarts determine their outcomes, so `Run`'s result does not depend on which matching outcome list is used |
| MultiStart.RunOver | K-Means/src/bonus/MultiStartResult.java:16-21 | the loop's result has the clusters, SSE, restart number and total time the result constructor stores, as `Reports` relates them to the restart outcomes |

## Left out

- DistanceUtils.Distance: returns the squared distance. `Math.sqrt` is left out: it is monotone, every comparison of distances is the same comparison of squares, and the SSE squares the distance again.
- Floating point is modelled by exact reals. Rounding, NaN and infinities are not modelled.
- The `Double.MAX_VALUE` starting values of the nearest-centroid scans and of `bestSSE` are modelled as "no candidate yet". They behave differently only when a distance or SSE reaches `MAX_VALUE` or is NaN.
- `(start + end) / 2` does not overflow for lists under 2^30 elements, so it is taken as exact integer arithmetic. `totalTime` is an unbounded integer, so a `long` overflow of the sum is not modelled.
- Randomness: `java.util.Random`, `Collections.shuffle` and `RandomUtils` are replaced by the choices they make (`perm`, `firstIndex`, `draws`). `RandomUtils.setSeed` with the clock is left out, so the relation between the seeds and the draws is not modelled.
- Clock: `System.currentTimeMillis` is replaced by each restart's `elapsed` time.
- All console output (`System.out.println`) is left out.
- Concurrency: `ForkJoinPool`, `fork` and `join` become recursion. The halves of both tasks work on disjoint indices, and their results are combined left half first.
- Aliasing: the Java classes hand out their live lists (`getPoints`, `getClusters`). The model has value semantics, so a deep copy is the identity on well-formed data, as `MultiStart.CopyClusters` states.
- MultiStart.Run: it does not make the deep copy of the winning clusters. Every `Point` the constructor builds has a coordinate, so the copy equals its input.
- Getters (`getK`, `getClusters`, the `MultiStartResult` accessors and similar) are field reads of the datatypes. `toString` methods are left out.
- SequentialEngine.Run, ParallelEngine.RunWith: these report a dimension mismatch before the loop, not during the first assignment. The assignment compares every point with every centroid, so it throws exactly then. The clusters it leaves behind are not modelled.
- The iteration steps are defined only for clusters whose centroids are comparable with every point (`Fits`). On other clusters the loop step is an inert placeholder that a run never reaches.
- `KMeansSequential` has no `setInitialClusters`, so `MultiStartKMeans.runSequential` does not compile as written. It is modelled as described above, with the k-means++ seeds unused.
- The GUI, the experiment runner, the data-set loader and `Main` are outside the modelled core.

## Findings

| source | as written | input that shows it | evidently intended | confidence | as-written member | corrected member |
|---|---|---|---|---|---|---|
| K-Means/src/core/KMeansParallel.java:43-48 | each iteration clears the clusters, runs the assignment task and drops the map it returns; `mergeIntoClusters` is never called, so the recompute sees only empty clusters | any successful run, e.g. k = 1 over the points (0) and (2): it stops after one iteration with no members and reports SSE 0 | merge the map into the cleared clusters before the recompute, which makes the parallel engine compute the sequential engine's iterations | high; not executed | ParallelEngine.RunAsWrittenDiscards | ParallelEngine.MergedRunIsSequential |
| K-Means/src/bonus/MultiStartKMeans.java:112-123 | `runParallel` runs the parallel engine as written, so every successful parallel restart ends with empty clusters and SSE 0, and `run` always reports restart 1 | the parallel flag with any successful restarts, e.g. k = 1 over the points (0) and (2): every restart scores 0 and restart 1 is reported | each parallel restart clusters the points as the sequential engine does, and the best restart is the one with the lowest true SSE | high; not executed | MultiStart.ParallelReportsFirst | MultiStart.RestartMergedShape |
