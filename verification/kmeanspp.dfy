/** k-means++ seeding. The first centroid is the point at a uniformly drawn
    index; each further centroid is drawn with probability proportional to a
    point's squared distance to the nearest centroid chosen so far, by
    walking the running sum of those weights up to a uniform draw scaled by
    their total. The random index and the draws in [0, 1) are inputs here. */
module KMeansPlusPlus {
  import opened Wrappers
  import opened Points
  import opened Clusters
  import opened DistanceUtils
  import opened AssignTask

  /** A point's weight: the squared distance from p to the nearest of the
      given centroids. */
  function MinSqDist(p: Point, cents: seq<Point>): real
    requires |cents| > 0 && SameDim(p, cents)
  {
    SqDist(p, cents[Nearest(p, cents)])
  }

  /** No centroid is closer than the weight says, and some centroid is that
      close. */
  lemma MinSqDistIsMin(p: Point, cents: seq<Point>)
    requires |cents| > 0 && SameDim(p, cents)
    ensures forall j :: 0 <= j < |cents| ==> MinSqDist(p, cents) <= SqDist(p, cents[j])
    ensures exists j :: 0 <= j < |cents| && MinSqDist(p, cents) == SqDist(p, cents[j])
  {
    var n := Nearest(p, cents);
    NearestIsMin(p, cents);
    assert MinSqDist(p, cents) == SqDist(p, cents[n]);
  }

  /** A point with positive weight coincides with none of the chosen
      centroids. */
  lemma MinSqDistZero(p: Point, cents: seq<Point>)
    requires |cents| > 0 && SameDim(p, cents)
    ensures MinSqDist(p, cents) > 0.0 ==> forall j :: 0 <= j < |cents| ==> cents[j] != p
  {
    MinSqDistIsMin(p, cents);
    forall j | 0 <= j < |cents| && cents[j] == p
      ensures MinSqDist(p, cents) <= 0.0
    {
      SqDistSelf(p);
    }
  }

  /** `minDistancesSquared`: every point's weight, in point order. */
  function Weights(points: seq<Point>, cents: seq<Point>): (w: seq<real>)
    requires |cents| > 0 && Assignable(points, cents)
    ensures |w| == |points|
    ensures forall i {:trigger w[i]} :: 0 <= i < |points| ==> w[i] == MinSqDist(points[i], cents)
  {
    seq(|points|, i requires 0 <= i < |points| => MinSqDist(points[i], cents))
  }

  /** The sum of the first n weights. */
  function Sum(w: seq<real>, n: nat): real
    requires n <= |w|
  {
    if n == 0 then 0.0 else Sum(w, n - 1) + w[n - 1]
  }

  predicate NonNegative(w: seq<real>) {
    forall i :: 0 <= i < |w| ==> w[i] >= 0.0
  }

  lemma {:induction false} WeightsNonNegative(points: seq<Point>, cents: seq<Point>)
    requires |cents| > 0 && Assignable(points, cents)
    ensures NonNegative(Weights(points, cents))
  {
    var w := Weights(points, cents);
    forall i | 0 <= i < |w|
      ensures w[i] >= 0.0
    {
      assert w[i] == SqDist(points[i], cents[Nearest(points[i], cents)]);
    }
  }

  lemma {:induction false} SumMonotone(w: seq<real>, m: nat, n: nat)
    requires NonNegative(w) && m <= n <= |w|
    ensures Sum(w, m) <= Sum(w, n)
    decreases n - m
  {
    if m < n {
      SumMonotone(w, m, n - 1);
    }
  }

  /** The running sum up to and including position i reaches the target. */
  predicate Reaches(w: seq<real>, target: real, i: nat)
    requires i < |w|
  {
    Sum(w, i + 1) >= target
  }

  /** The cumulative walk from position i on: the first index whose running
      sum reaches the target, or the last index when none does. */
  function SelectFrom(w: seq<real>, target: real, i: nat): (r: nat)
    requires 0 < |w| && i <= |w|
    ensures r < |w|
    decreases |w| - i
  {
    if i == |w| then |w| - 1
    else if Reaches(w, target, i) then i
    else SelectFrom(w, target, i + 1)
  }

  /** The cumulative walk of `selectNextCentroid`. */
  function SelectIndex(w: seq<real>, target: real): (r: nat)
    requires 0 < |w|
    ensures r < |w|
  {
    SelectFrom(w, target, 0)
  }

  lemma {:induction false} SelectFromSpec(w: seq<real>, target: real, i: nat)
    requires 0 < |w| && i <= |w|
    requires forall j :: 0 <= j < i ==> !Reaches(w, target, j)
    ensures var r := SelectFrom(w, target, i);
      && (forall j :: 0 <= j < r ==> !Reaches(w, target, j))
      && (Reaches(w, target, r) || (r == |w| - 1 && forall j :: 0 <= j < |w| ==> !Reaches(w, target, j)))
    decreases |w| - i
  {
    if i < |w| && !Reaches(w, target, i) {
      SelectFromSpec(w, target, i + 1);
    }
  }

  /** The walk picks the first index whose running sum reaches the target;
      when no running sum reaches it, the walk falls back to the last index. */
  lemma SelectIndexSpec(w: seq<real>, target: real)
    requires 0 < |w|
    ensures var r := SelectIndex(w, target);
      && (forall j :: 0 <= j < r ==> !Reaches(w, target, j))
      && (Reaches(w, target, r) <==> exists j :: 0 <= j < |w| && Reaches(w, target, j))
      && ((forall j :: 0 <= j < |w| ==> !Reaches(w, target, j)) ==> r == |w| - 1)
  {
    SelectFromSpec(w, target, 0);
  }

  lemma ProductNonNegative(a: real, b: real)
    requires a >= 0.0 && b >= 0.0
    ensures a * b >= 0.0
  {
  }

  lemma ProductPositive(a: real, b: real)
    requires a > 0.0 && b > 0.0
    ensures a * b > 0.0
  {
  }

  /** `RandomUtils.nextDouble() * totalDistanceSquared`: the draw scaled to
      the total weight. */
  function Target(w: seq<real>, u: real): real {
    Scale(u, Sum(w, |w|))
  }

  /** A draw times an amount. */
  function Scale(u: real, t: real): real {
    u * t
  }

  /** With non-negative weights and a draw in [0, 1), the target is at
      least 0 and at most the total; with a positive draw and a positive
      total it is positive. */
  lemma TargetBounds(w: seq<real>, u: real)
    requires NonNegative(w) && 0.0 <= u < 1.0
    ensures 0.0 <= Target(w, u) <= Sum(w, |w|)
    ensures u > 0.0 && Sum(w, |w|) > 0.0 ==> Target(w, u) > 0.0
  {
    var t := Sum(w, |w|);
    SumMonotone(w, 0, |w|);
    assert t >= 0.0;
    ScaledBelow(u, t);
    ScaledPositive(u, t);
    assert Target(w, u) == u * t;
  }

  /** A fraction in [0, 1) of a non-negative amount lies between 0 and the
      amount. */
  lemma ScaledBelow(u: real, t: real)
    requires 0.0 <= u < 1.0 && t >= 0.0
    ensures 0.0 <= u * t <= t
  {
    assert t - u * t == (1.0 - u) * t;
    ProductNonNegative(1.0 - u, t);
    ProductNonNegative(u, t);
  }

  lemma ScaledPositive(u: real, t: real)
    ensures u > 0.0 && t > 0.0 ==> u * t > 0.0
  {
    if u > 0.0 && t > 0.0 {
      ProductPositive(u, t);
    }
  }

  /** With non-negative weights and a draw in [0, 1), the target never
      exceeds the total, so the fallback after the walk is never taken: the
      chosen index is one whose running sum reaches the target. */
  lemma FallbackUnreachable(w: seq<real>, u: real)
    requires 0 < |w| && NonNegative(w) && 0.0 <= u < 1.0
    ensures Reaches(w, Target(w, u), SelectIndex(w, Target(w, u)))
  {
    var target := Target(w, u);
    TargetBounds(w, u);
    assert Reaches(w, target, |w| - 1);
    SelectIndexSpec(w, target);
  }

  /** A positive draw and a positive total always pick a point of positive
      weight: the walk stops on the step where the running sum crosses the
      target, and that step adds a positive amount. */
  lemma SelectedWeightPositive(w: seq<real>, u: real)
    requires 0 < |w| && NonNegative(w) && 0.0 < u < 1.0 && Sum(w, |w|) > 0.0
    ensures w[SelectIndex(w, Target(w, u))] > 0.0
  {
    var target := Target(w, u);
    var r := SelectIndex(w, target);
    FallbackUnreachable(w, u);
    SelectIndexSpec(w, target);
    TargetBounds(w, u);
    assert Sum(w, r + 1) == Sum(w, r) + w[r];
    if r > 0 {
      assert !Reaches(w, target, r - 1);
    }
    assert Sum(w, r) < target;
  }

  /** A draw of exactly 0 makes the target 0, which the first running sum
      already reaches: the first point is picked whatever its weight, even a
      point that is already a centroid. */
  lemma ZeroDrawPicksFirst(w: seq<real>)
    requires 0 < |w| && NonNegative(w)
    ensures SelectIndex(w, Target(w, 0.0)) == 0
  {
    TargetBounds(w, 0.0);
    assert Reaches(w, Target(w, 0.0), 0);
  }

  /** The points at the given indices. */
  function At(points: seq<Point>, idx: seq<nat>): (r: seq<Point>)
    requires forall t :: 0 <= t < |idx| ==> idx[t] < |points|
    ensures |r| == |idx|
    ensures forall t :: 0 <= t < |idx| ==> r[t] == points[idx[t]]
  {
    seq(|idx|, t requires 0 <= t < |idx| => points[idx[t]])
  }

  /** Points of one dimension can be compared with any of them. */
  lemma UniformAssignable(points: seq<Point>, idx: seq<nat>)
    requires Uniform(points)
    requires forall t :: 0 <= t < |idx| ==> idx[t] < |points|
    ensures Assignable(points, At(points, idx))
  {
  }

  /** `selectNextCentroid`, as the index of the point it copies: weights
      against the chosen centroids, then the walk to draw * total. */
  function NextIndex(points: seq<Point>, cents: seq<Point>, u: real): (r: nat)
    requires 0 < |points| && 0 < |cents| && Assignable(points, cents)
    ensures r < |points|
  {
    var w := Weights(points, cents);
    SelectIndex(w, Target(w, u))
  }

  /** With a draw in (0, 1), as long as some point is not yet a centroid, the
      next centroid is a point that is not yet a centroid. */
  lemma NextIndexIsNew(points: seq<Point>, cents: seq<Point>, u: real)
    requires 0 < |points| && 0 < |cents| && Assignable(points, cents)
    requires 0.0 < u < 1.0
    requires Sum(Weights(points, cents), |points|) > 0.0
    ensures forall j :: 0 <= j < |cents| ==> cents[j] != points[NextIndex(points, cents, u)]
  {
    var w := Weights(points, cents);
    var i := NextIndex(points, cents, u);
    assert i == SelectIndex(w, Target(w, u));
    WeightsNonNegative(points, cents);
    SelectedWeightPositive(w, u);
    assert MinSqDist(points[i], cents) > 0.0;
    MinSqDistZero(points[i], cents);
  }

  /** The indices of the first n centroids: firstIndex, then one weighted
      draw per further centroid, draws[t - 1] for centroid t. */
  function SeedIndices(points: seq<Point>, firstIndex: nat, draws: seq<real>, n: nat): (r: seq<nat>)
    requires firstIndex < |points| && 1 <= n && n - 1 <= |draws|
    requires n >= 2 ==> Uniform(points)
    ensures |r| == n && r[0] == firstIndex
    ensures forall t :: 0 <= t < n ==> r[t] < |points|
    decreases n
  {
    if n == 1 then [firstIndex]
    else
      var prev := SeedIndices(points, firstIndex, draws, n - 1);
      UniformAssignable(points, prev);
      var next := NextIndex(points, At(points, prev), draws[n - 2]);
      var r := prev + [next];
      assert forall t :: 0 <= t < n - 1 ==> r[t] == prev[t];
      assert r[n - 1] == next;
      r
  }

  /** `initializeCentroids`: rejects no points, then k <= 0, then k beyond
      the number of points; with two or more centroids, the first weighting
      compares every point with the first centroid, which throws when the
      points do not all share its dimension. */
  function InitializeCentroids(points: seq<Point>, k: int, firstIndex: nat, draws: seq<real>): (r: Result<seq<Point>>)
    requires 0 < |points| ==> firstIndex < |points|
    requires k - 1 <= |draws|
    ensures |points| == 0 ==> r == Err(EmptyPoints)
    ensures 0 < |points| && k <= 0 ==> r == Err(NonPositiveK)
    ensures 0 < |points| && 0 < k && k > |points| ==> r == Err(KExceedsPoints)
    ensures 0 < |points| && 2 <= k <= |points| && !Uniform(points) ==> r == Err(DimensionMismatch)
    ensures r.Ok? <==> 0 < k <= |points| && (k == 1 || Uniform(points))
    ensures r.Ok? ==> |r.value| == k && r.value[0] == points[firstIndex]
  {
    if |points| == 0 then Err(EmptyPoints)
    else if k <= 0 then Err(NonPositiveK)
    else if k > |points| then Err(KExceedsPoints)
    else if k >= 2 && !Uniform(points) then Err(DimensionMismatch)
    else
      Ok(At(points, SeedIndices(points, firstIndex, draws, k)))
  }

  /** Every centroid the seeding returns is one of the input points. */
  lemma CentroidsArePoints(points: seq<Point>, k: int, firstIndex: nat, draws: seq<real>)
    requires 0 < |points| ==> firstIndex < |points|
    requires k - 1 <= |draws|
    requires InitializeCentroids(points, k, firstIndex, draws).Ok?
    ensures var cents := InitializeCentroids(points, k, firstIndex, draws).value;
      forall t :: 0 <= t < |cents| ==> exists i :: 0 <= i < |points| && cents[t] == points[i]
  {
    var idx := SeedIndices(points, firstIndex, draws, k);
    var cents := InitializeCentroids(points, k, firstIndex, draws).value;
    forall t | 0 <= t < |cents|
      ensures exists i :: 0 <= i < |points| && cents[t] == points[i]
    {
      assert cents[t] == points[idx[t]];
    }
  }

  /** No two positions of the input hold points at distance 0. */
  predicate Separated(points: seq<Point>) {
    forall i, j {:trigger SqDist(points[i], points[j])} :: 0 <= i < |points| && 0 <= j < |points| && i != j ==>
      points[i].Dim() == points[j].Dim() && SqDist(points[i], points[j]) > 0.0
  }

  /** With draws in (0, 1) and no two input points at distance 0, the seeded
      centroids are pairwise different: while fewer than all points are
      centroids, some point is away from every centroid, so the total weight
      is positive and each draw finds a point that is not yet a centroid. */
  lemma {:induction false} SeedsDistinct(points: seq<Point>, firstIndex: nat, draws: seq<real>, n: nat)
    requires firstIndex < |points| && 1 <= n <= |points| && n - 1 <= |draws|
    requires Uniform(points) && Separated(points)
    requires forall t :: 0 <= t < |draws| ==> 0.0 < draws[t] < 1.0
    ensures Distinct(At(points, SeedIndices(points, firstIndex, draws, n)))
  {
    if n >= 2 {
      SeedsDistinct(points, firstIndex, draws, n - 1);
      DistinctStep(points, firstIndex, draws, n);
    }
  }

  lemma DistinctStep(points: seq<Point>, firstIndex: nat, draws: seq<real>, n: nat)
    requires firstIndex < |points| && 2 <= n <= |points| && n - 1 <= |draws|
    requires Uniform(points) && Separated(points)
    requires 0.0 < draws[n - 2] < 1.0
    requires Distinct(At(points, SeedIndices(points, firstIndex, draws, n - 1)))
    ensures Distinct(At(points, SeedIndices(points, firstIndex, draws, n)))
  {
    SeedStep(points, firstIndex, draws, n);
    NextKeepsDistinct(points, SeedIndices(points, firstIndex, draws, n - 1), draws[n - 2]);
  }

  /** One draw keeps the centroids pairwise different while fewer than all
      points are centroids. */
  lemma NextKeepsDistinct(points: seq<Point>, prev: seq<nat>, u: real)
    requires Uniform(points) && Separated(points)
    requires 0 < |prev| < |points|
    requires forall t :: 0 <= t < |prev| ==> prev[t] < |points|
    requires 0.0 < u < 1.0
    requires Distinct(At(points, prev))
    ensures Assignable(points, At(points, prev))
    ensures Distinct(At(points, prev) + [points[NextIndex(points, At(points, prev), u)]])
  {
    var cents := At(points, prev);
    PositiveTotal(points, prev);
    NextIndexIsNew(points, cents, u);
    DistinctAppend(cents, points[NextIndex(points, cents, u)]);
  }

  predicate Distinct(ps: seq<Point>) {
    forall s, t :: 0 <= s < t < |ps| ==> ps[s] != ps[t]
  }

  lemma DistinctAppend(ps: seq<Point>, p: Point)
    requires Distinct(ps)
    requires forall j :: 0 <= j < |ps| ==> ps[j] != p
    ensures Distinct(ps + [p])
  {
  }

  lemma AtAppend(points: seq<Point>, idx: seq<nat>, i: nat)
    requires forall t :: 0 <= t < |idx| ==> idx[t] < |points|
    requires i < |points|
    ensures At(points, idx + [i]) == At(points, idx) + [points[i]]
  {
    assert (idx + [i])[..|idx|] == idx;
  }

  /** While fewer positions than points are centroids, some point is away
      from every centroid, so the total weight is positive. */
  lemma PositiveTotal(points: seq<Point>, prev: seq<nat>)
    requires Uniform(points) && Separated(points)
    requires 0 < |prev| < |points|
    requires forall t :: 0 <= t < |prev| ==> prev[t] < |points|
    ensures Assignable(points, At(points, prev))
    ensures Sum(Weights(points, At(points, prev)), |points|) > 0.0
  {
    var cents := At(points, prev);
    UniformAssignable(points, prev);
    var w := Weights(points, cents);
    WeightsNonNegative(points, cents);
    var free := FreeIndex(|points|, prev);
    assert w[free] > 0.0 by {
      var j := Nearest(points[free], cents);
      assert w[free] == SqDist(points[free], cents[j]);
      assert cents[j] == points[prev[j]] && prev[j] != free;
    }
    SumAtLeast(w, free);
  }

  /** A single weight never exceeds the total of non-negative weights. */
  lemma {:induction false} SumAtLeast(w: seq<real>, i: nat)
    requires NonNegative(w) && i < |w|
    ensures Sum(w, |w|) >= w[i]
  {
    SumMonotone(w, i + 1, |w|);
    SumMonotone(w, 0, i);
  }

  /** The positions a list of indices takes up. */
  function Used(idx: seq<nat>): set<nat> {
    set t | 0 <= t < |idx| :: idx[t]
  }

  lemma {:induction false} UsedCard(idx: seq<nat>)
    ensures |Used(idx)| <= |idx|
  {
    if |idx| > 0 {
      var p := idx[..|idx| - 1];
      UsedCard(p);
      assert Used(idx) == Used(p) + {idx[|idx| - 1]};
    }
  }

  /** The positions 0 .. n-1. */
  function Below(n: nat): set<nat> {
    if n == 0 then {} else Below(n - 1) + {n - 1}
  }

  lemma {:induction false} BelowSpec(n: nat)
    ensures |Below(n)| == n
    ensures forall x: nat :: x in Below(n) <==> x < n
  {
    if n > 0 {
      BelowSpec(n - 1);
      assert Below(n - 1) * {n - 1} == {};
    }
  }

  lemma SubsetCard(a: set<nat>, b: set<nat>)
    requires a <= b
    ensures |a| <= |b|
  {
    assert b == a + (b - a);
  }

  /** Fewer indices than positions leave a position none of them takes. */
  lemma FreeIndex(n: nat, idx: seq<nat>) returns (free: nat)
    requires |idx| < n
    ensures free < n
    ensures forall t :: 0 <= t < |idx| ==> idx[t] != free
  {
    UsedCard(idx);
    BelowSpec(n);
    var rest := Below(n) - Used(idx);
    assert Below(n) <= rest + Used(idx);
    SubsetCard(Below(n), rest + Used(idx));
    assert |rest| > 0;
    free :| free in rest;
  }

  /** `initializeClusters`: one cluster without members per seeded centroid,
      in order. */
  function InitializeClusters(points: seq<Point>, k: int, firstIndex: nat, draws: seq<real>): (r: Result<seq<Cluster>>)
    requires 0 < |points| ==> firstIndex < |points|
    requires k - 1 <= |draws|
    ensures r.Err? <==> InitializeCentroids(points, k, firstIndex, draws).Err?
    ensures r.Err? ==> r.error == InitializeCentroids(points, k, firstIndex, draws).error
    ensures r.Ok? ==> Centroids(r.value) == InitializeCentroids(points, k, firstIndex, draws).value
    ensures r.Ok? ==> forall t :: 0 <= t < |r.value| ==> |r.value[t].members| == 0
  {
    var cents :- InitializeCentroids(points, k, firstIndex, draws);
    var cs := seq(|cents|, t requires 0 <= t < |cents| => NewCluster(cents[t]));
    assert Centroids(cs) == cents;
    Ok(cs)
  }

  /** Visiting one more centroid in the inner scan of `selectNextCentroid`
      keeps the best squared distance that of the nearest centroid so far. */
  lemma NearestPrefixStep(p: Point, cs: seq<Point>)
    requires 2 <= |cs| && SameDim(p, cs)
    ensures var m := SqDist(p, cs[Nearest(p, cs[..|cs| - 1])]);
      var d := SqDist(p, cs[|cs| - 1]);
      SqDist(p, cs[Nearest(p, cs)]) == if d < m then d else m
  {
  }

  /** One more centroid scanned: the weight over the longer prefix is the
      smaller of the new distance and the weight so far, the earlier one on a
      tie. */
  lemma ScanStep(p: Point, cents: seq<Point>, j: nat)
    requires j < |cents| && SameDim(p, cents[..j]) && cents[j].Dim() == p.Dim()
    ensures SameDim(p, cents[..j + 1])
    ensures j == 0 ==> MinSqDist(p, cents[..j + 1]) == SqDist(p, cents[j])
    ensures j > 0 ==> var d, m := SqDist(p, cents[j]), MinSqDist(p, cents[..j]);
      MinSqDist(p, cents[..j + 1]) == if d < m then d else m
  {
    var cs := cents[..j + 1];
    assert cs[..j] == cents[..j] && cs[j] == cents[j];
    if j > 0 {
      NearestPrefixStep(p, cs);
    }
  }

  /** The scan over centroids for one point: the smallest squared distance,
      where a later centroid replaces the best so far only when strictly
      closer; a dimension mismatch with any centroid throws. */
  method MinDistanceTo(p: Point, cents: seq<Point>) returns (r: Result<real>)
    requires |cents| > 0
    ensures r.Err? <==> !SameDim(p, cents)
    ensures r.Err? ==> r.error == DimensionMismatch
    ensures r.Ok? ==> r.value == MinSqDist(p, cents)
  {
    var best: Option<real> := None;
    var j := 0;
    while j < |cents|
      invariant 0 <= j <= |cents|
      invariant SameDim(p, cents[..j])
      invariant j == 0 <==> best.None?
      invariant j > 0 ==> best == Some(MinSqDist(p, cents[..j]))
    {
      var d := Distance(p, cents[j]);
      if d.Err? {
        return Err(DimensionMismatch);
      }
      ScanStep(p, cents, j);
      if best.None? || d.value < best.value {
        best := Some(d.value);
      }
      j := j + 1;
    }
    assert cents[..j] == cents;
    return Ok(best.value);
  }

  /** When the first index whose running sum reaches the target is i, the walk
      picks i. */
  lemma SelectIndexAt(w: seq<real>, target: real, i: nat)
    requires i < |w|
    requires forall j :: 0 <= j < i ==> !Reaches(w, target, j)
    requires Reaches(w, target, i)
    ensures SelectIndex(w, target) == i
  {
    SelectIndexSpec(w, target);
  }

  /** One more point weighed: its weight extends those of the points before. */
  lemma WeighStep(points: seq<Point>, cents: seq<Point>, ws: seq<real>, w: real)
    requires 0 < |cents| && |ws| < |points|
    requires forall t :: 0 <= t < |ws| ==> SameDim(points[t], cents)
    requires forall t :: 0 <= t < |ws| ==> ws[t] == MinSqDist(points[t], cents)
    requires SameDim(points[|ws|], cents) && w == MinSqDist(points[|ws|], cents)
    ensures forall t :: 0 <= t < |ws| + 1 ==> SameDim(points[t], cents)
    ensures forall t :: 0 <= t < |ws| + 1 ==> (ws + [w])[t] == MinSqDist(points[t], cents)
  {
  }

  /** The first loop of `selectNextCentroid`: every point's weight and their
      total; comparing a point with a centroid of another dimension throws. */
  method Weigh(points: seq<Point>, cents: seq<Point>) returns (r: Result<seq<real>>, total: real)
    requires 0 < |cents|
    ensures r.Err? <==> !Assignable(points, cents)
    ensures r.Err? ==> r.error == DimensionMismatch
    ensures r.Ok? ==> Assignable(points, cents) && r.value == Weights(points, cents)
    ensures r.Ok? ==> total == Sum(r.value, |points|)
  {
    var ws: seq<real> := [];
    total := 0.0;
    var i := 0;
    while i < |points|
      invariant 0 <= i <= |points| && |ws| == i
      invariant forall t :: 0 <= t < i ==> SameDim(points[t], cents)
      invariant forall t :: 0 <= t < i ==> ws[t] == MinSqDist(points[t], cents)
      invariant total == Sum(ws, i)
    {
      var m := MinDistanceTo(points[i], cents);
      if m.Err? {
        return Err(DimensionMismatch), total;
      }
      var next := ws + [m.value];
      WeighStep(points, cents, ws, m.value);
      SumPrefix(next, ws, i);
      ws := next;
      total := total + m.value;
      i := i + 1;
    }
    assert ws == Weights(points, cents);
    return Ok(ws), total;
  }

  /** The second loop of `selectNextCentroid`: the cumulative walk, falling
      back to the last index. */
  method Walk(ws: seq<real>, target: real) returns (i: nat)
    requires 0 < |ws|
    ensures i == SelectIndex(ws, target)
  {
    var cumulative := 0.0;
    i := 0;
    while i < |ws|
      invariant 0 <= i <= |ws|
      invariant cumulative == Sum(ws, i)
      invariant forall j :: 0 <= j < i ==> !Reaches(ws, target, j)
    {
      cumulative := cumulative + ws[i];
      if cumulative >= target {
        assert Reaches(ws, target, i);
        SelectIndexAt(ws, target, i);
        return i;
      }
      i := i + 1;
    }
    SelectIndexSpec(ws, target);
    return |ws| - 1;
  }

  /** `selectNextCentroid`: the weights, the draw scaled by their total, the
      walk, and (a copy of) the point it stops at. */
  method SelectNextCentroid(points: seq<Point>, cents: seq<Point>, u: real) returns (r: Result<Point>)
    requires 0 < |points| && 0 < |cents|
    ensures r.Err? <==> !Assignable(points, cents)
    ensures r.Err? ==> r.error == DimensionMismatch
    ensures r.Ok? ==> Assignable(points, cents) && r.value == points[NextIndex(points, cents, u)]
  {
    var ws, total := Weigh(points, cents);
    if ws.Err? {
      return Err(DimensionMismatch);
    }
    var target := Scale(u, total);
    var i := Walk(ws.value, target);
    return Ok(points[i]);
  }

  /** Running sums only look at the positions they cover. */
  lemma {:induction false} SumPrefix(w: seq<real>, v: seq<real>, n: nat)
    requires n <= |w| && n <= |v|
    requires forall t :: 0 <= t < n ==> w[t] == v[t]
    ensures Sum(w, n) == Sum(v, n)
  {
    if n > 0 {
      SumPrefix(w, v, n - 1);
    }
  }

  /** The points can all be compared with one of them exactly when they all
      share one dimension. */
  lemma AssignableToOne(points: seq<Point>, f: nat)
    requires f < |points|
    ensures Assignable(points, [points[f]]) <==> Uniform(points)
  {
    if Assignable(points, [points[f]]) {
      forall i, j | 0 <= i < |points| && 0 <= j < |points|
        ensures points[i].Dim() == points[j].Dim()
      {
        assert [points[f]][0] == points[f];
        assert SameDim(points[i], [points[f]]) && SameDim(points[j], [points[f]]);
      }
    }
  }

  /** One more seed appends the point the next weighted draw picks. */
  lemma SeedStep(points: seq<Point>, firstIndex: nat, draws: seq<real>, n: nat)
    requires firstIndex < |points| && 2 <= n <= |draws| + 1 && Uniform(points)
    ensures var prev := At(points, SeedIndices(points, firstIndex, draws, n - 1));
      Assignable(points, prev)
      && At(points, SeedIndices(points, firstIndex, draws, n))
         == prev + [points[NextIndex(points, prev, draws[n - 2])]]
  {
    var idx := SeedIndices(points, firstIndex, draws, n - 1);
    UniformAssignable(points, idx);
    var next := NextIndex(points, At(points, idx), draws[n - 2]);
    assert SeedIndices(points, firstIndex, draws, n) == idx + [next];
    AtAppend(points, idx, next);
  }

  /** `cents` are the first n seeded centroids. The quantifier names
      SeedIndices(..., m) as its trigger, so the fact is used only where
      that term is already mentioned and the draws behind it stay folded. */
  predicate SeededUpTo(points: seq<Point>, firstIndex: nat, draws: seq<real>, n: nat, cents: seq<Point>)
    requires firstIndex < |points| && 1 <= n && n - 1 <= |draws|
    requires n >= 2 ==> Uniform(points)
  {
    forall m {:trigger SeedIndices(points, firstIndex, draws, m)} ::
      m == n ==> cents == At(points, SeedIndices(points, firstIndex, draws, m))
  }

  /** One round of the seeding loop: the next centroid drawn against the
      centroids so far, or the exception when the points do not all share a
      dimension. */
  method SeedOnce(points: seq<Point>, firstIndex: nat, draws: seq<real>, i: nat, cents: seq<Point>)
    returns (r: Result<seq<Point>>)
    requires firstIndex < |points| && 1 <= i <= |draws|
    requires i >= 2 ==> Uniform(points)
    requires SeededUpTo(points, firstIndex, draws, i, cents)
    ensures r.Err? <==> !Uniform(points)
    ensures r.Err? ==> r.error == DimensionMismatch
    ensures r.Ok? ==> Uniform(points) && SeededUpTo(points, firstIndex, draws, i + 1, r.value)
  {
    assert cents == At(points, SeedIndices(points, firstIndex, draws, i));
    if i == 1 {
      assert cents == [points[firstIndex]];
      AssignableToOne(points, firstIndex);
    } else {
      UniformAssignable(points, SeedIndices(points, firstIndex, draws, i));
    }
    var next := SelectNextCentroid(points, cents, draws[i - 1]);
    if next.Err? {
      return Err(DimensionMismatch);
    }
    SeedStep(points, firstIndex, draws, i + 1);
    r := Ok(cents + [next.value]);
    assert r.value == At(points, SeedIndices(points, firstIndex, draws, i + 1));
  }

  /** The seeding loop of `initializeCentroids`: a copy of the point at the
      random index, then one `selectNextCentroid` per further centroid; the
      first of those throws when the points do not all share a dimension. */
  method Seed(points: seq<Point>, k: nat, firstIndex: nat, draws: seq<real>) returns (r: Result<seq<Point>>)
    requires firstIndex < |points| && 1 <= k <= |points| && k - 1 <= |draws|
    ensures r.Err? <==> k >= 2 && !Uniform(points)
    ensures r.Err? ==> r.error == DimensionMismatch
    ensures r.Ok? ==> (k >= 2 ==> Uniform(points)) && r.value == At(points, SeedIndices(points, firstIndex, draws, k))
  {
    var cents := [points[firstIndex]];
    var i := 1;
    assert cents == At(points, SeedIndices(points, firstIndex, draws, 1));
    while i < k
      invariant 1 <= i <= k
      invariant i >= 2 ==> Uniform(points)
      invariant SeededUpTo(points, firstIndex, draws, i, cents)
    {
      var next := SeedOnce(points, firstIndex, draws, i, cents);
      if next.Err? {
        return Err(DimensionMismatch);
      }
      cents := next.value;
      i := i + 1;
    }
    return Ok(cents);
  }

  /** `initializeCentroids`: the argument checks, then the seeding loop. */
  method InitializeCentroidsLoop(points: seq<Point>, k: int, firstIndex: nat, draws: seq<real>) returns (r: Result<seq<Point>>)
    requires 0 < |points| ==> firstIndex < |points|
    requires k - 1 <= |draws|
    ensures r == InitializeCentroids(points, k, firstIndex, draws)
  {
    if |points| == 0 {
      return Err(EmptyPoints);
    }
    if k <= 0 {
      return Err(NonPositiveK);
    }
    if k > |points| {
      return Err(KExceedsPoints);
    }
    r := Seed(points, k, firstIndex, draws);
  }
}
