/** The race-free parallel assignment: each leaf of a divide-and-conquer
    task over a range of point indices builds a private map from cluster
    index to the points nearest that cluster; parents merge their children's
    maps; a single serial step then appends the root map to the clusters.
    The fork/join scheduling is plain recursion here. */
module AssignTask {
  import opened Points
  import opened Clusters
  import opened DistanceUtils

  /** Every centroid has the point's dimension, so every distance is defined. */
  predicate SameDim(p: Point, cents: seq<Point>) {
    forall j :: 0 <= j < |cents| ==> cents[j].Dim() == p.Dim()
  }

  /** Every point can be compared with every centroid. */
  predicate Assignable(points: seq<Point>, cents: seq<Point>) {
    forall i :: 0 <= i < |points| ==> SameDim(points[i], cents)
  }

  /** The nearest-centroid scan: centroids are visited in index order and a
      later one replaces the best so far only when strictly closer, so ties go
      to the lowest index. With no centroids the index stays -1. */
  function Nearest(p: Point, cents: seq<Point>): (r: int)
    requires SameDim(p, cents)
    ensures |cents| == 0 <==> r == -1
    ensures |cents| > 0 ==> 0 <= r < |cents|
  {
    if |cents| == 0 then -1
    else
      var best := Nearest(p, cents[..|cents| - 1]);
      if best == -1 || SqDist(p, cents[|cents| - 1]) < SqDist(p, cents[best]) then |cents| - 1
      else best
  }

  /** The scan finds a nearest centroid, and the first of them: none is
      closer, and every one before it is strictly further. */
  lemma {:induction false} NearestIsMin(p: Point, cents: seq<Point>)
    requires SameDim(p, cents) && |cents| > 0
    ensures var r := Nearest(p, cents);
      && (forall j :: 0 <= j < |cents| ==> SqDist(p, cents[r]) <= SqDist(p, cents[j]))
      && (forall j :: 0 <= j < r ==> SqDist(p, cents[r]) < SqDist(p, cents[j]))
  {
    if |cents| > 1 {
      var pre := cents[..|cents| - 1];
      assert forall j :: 0 <= j < |pre| ==> pre[j] == cents[j];
      NearestIsMin(p, pre);
    }
  }

  /** The points with index in [s, e) whose nearest centroid is j, in index
      order: the reference the assignment maps are measured against. */
  function Bucket(points: seq<Point>, s: nat, e: nat, cents: seq<Point>, j: int): (r: seq<Point>)
    requires s <= e <= |points| && Assignable(points, cents)
    ensures |r| <= e - s
    ensures forall t :: 0 <= t < |r| ==> SameDim(r[t], cents)
    decreases e - s
  {
    if e == s then []
    else Bucket(points, s, e - 1, cents, j) + (if Nearest(points[e - 1], cents) == j then [points[e - 1]] else [])
  }

  /** One more point of the range joins bucket j exactly when j is its
      nearest centroid. */
  lemma BucketNext(points: seq<Point>, s: nat, e: nat, cents: seq<Point>, j: int)
    requires s <= e < |points| && Assignable(points, cents)
    ensures Bucket(points, s, e + 1, cents, j) ==
      Bucket(points, s, e, cents, j) + (if Nearest(points[e], cents) == j then [points[e]] else [])
  {
  }

  /** A map from cluster index to the points assigned to that cluster. */
  type Assignment = map<int, seq<Point>>

  /** The list a map holds for key j, empty when j is absent. */
  function Get(m: Assignment, j: int): seq<Point> {
    if j in m then m[j] else []
  }

  /** A leaf: visits the points of [s, e) in order and appends each to the
      list of its nearest centroid's index, creating the list on first use. */
  function AssignLeaf(points: seq<Point>, s: nat, e: nat, cents: seq<Point>): (r: Assignment)
    requires s <= e <= |points| && Assignable(points, cents)
    ensures forall j :: Get(r, j) == Bucket(points, s, e, cents, j)
    ensures forall j :: j in r ==> |r[j]| > 0
    decreases e - s
  {
    if e == s then map[]
    else
      var m := AssignLeaf(points, s, e - 1, cents);
      var n := Nearest(points[e - 1], cents);
      m[n := Get(m, n) + [points[e - 1]]]
  }

  /** `mergeAssignments`: the keys of both maps; under a key present in both,
      the left list followed by the right list. */
  function Merge(left: Assignment, right: Assignment): (r: Assignment)
    ensures r.Keys == left.Keys + right.Keys
    ensures forall j :: Get(r, j) == Get(left, j) + Get(right, j)
  {
    map j | j in left.Keys + right.Keys :: Get(left, j) + Get(right, j)
  }

  /** Splitting a range in two splits every bucket into its two halves. */
  lemma {:induction false} BucketSplit(points: seq<Point>, s: nat, m: nat, e: nat, cents: seq<Point>, j: int)
    requires s <= m <= e <= |points| && Assignable(points, cents)
    ensures Bucket(points, s, e, cents, j) == Bucket(points, s, m, cents, j) + Bucket(points, m, e, cents, j)
    decreases e - m
  {
    if e > m {
      BucketSplit(points, s, m, e - 1, cents, j);
    }
  }

  /** Two maps that hold the same keys and the same list under every key are
      equal. */
  lemma MapsEqual(a: Assignment, b: Assignment)
    requires forall j :: j in a <==> j in b
    requires forall j :: Get(a, j) == Get(b, j)
    ensures a == b
  {
    assert forall j :: j in a.Keys <==> j in b.Keys;
    assert a.Keys == b.Keys;
    forall j | j in a
      ensures a[j] == b[j]
    {
      assert Get(a, j) == Get(b, j);
    }
  }

  /** Merging the leaves of two adjacent ranges gives the leaf of their union. */
  lemma {:induction false} MergeSplit(points: seq<Point>, s: nat, m: nat, e: nat, cents: seq<Point>)
    requires s <= m <= e <= |points| && Assignable(points, cents)
    ensures Merge(AssignLeaf(points, s, m, cents), AssignLeaf(points, m, e, cents)) == AssignLeaf(points, s, e, cents)
  {
    var l := AssignLeaf(points, s, m, cents);
    var r := AssignLeaf(points, m, e, cents);
    var whole := AssignLeaf(points, s, e, cents);
    var merged := Merge(l, r);
    forall j
      ensures Get(merged, j) == Get(whole, j)
      ensures j in merged <==> j in whole
    {
      BucketSplit(points, s, m, e, cents, j);
      assert Get(merged, j) == Get(l, j) + Get(r, j);
    }
    MapsEqual(merged, whole);
  }

  lemma MergeNestedLeft(a: Assignment, b: Assignment, c: Assignment, j: int)
    ensures Get(Merge(Merge(a, b), c), j) == Get(a, j) + Get(b, j) + Get(c, j)
  {
  }

  lemma MergeNestedRight(a: Assignment, b: Assignment, c: Assignment, j: int)
    ensures Get(Merge(a, Merge(b, c)), j) == Get(a, j) + Get(b, j) + Get(c, j)
  {
  }

  /** Merging is associative, so the shape of the task tree does not matter. */
  lemma MergeAssociative(a: Assignment, b: Assignment, c: Assignment)
    ensures Merge(Merge(a, b), c) == Merge(a, Merge(b, c))
  {
    var l := Merge(Merge(a, b), c);
    var r := Merge(a, Merge(b, c));
    assert l.Keys == r.Keys;
    forall j | j in l
      ensures l[j] == r[j]
    {
      MergeNestedLeft(a, b, c, j);
      MergeNestedRight(a, b, c, j);
    }
  }

  /** The leaf size below which a task stops splitting. */
  const Threshold: nat := 1000

  /** `compute` with a given leaf size: at or below it, one leaf; above it,
      split at the midpoint and merge the left result with the right one. The
      result is the single leaf over the whole range, whatever the leaf size. */
  function ComputeWith(threshold: nat, points: seq<Point>, s: nat, e: nat, cents: seq<Point>): (r: Assignment)
    requires threshold >= 1
    requires s <= e <= |points| && Assignable(points, cents)
    ensures r == AssignLeaf(points, s, e, cents)
    decreases e - s
  {
    if e - s <= threshold then AssignLeaf(points, s, e, cents)
    else
      var mid := (s + e) / 2;
      var left := ComputeWith(threshold, points, s, mid, cents);
      var right := ComputeWith(threshold, points, mid, e, cents);
      MergeSplit(points, s, mid, e, cents);
      Merge(left, right)
  }

  /** `compute` with the task's leaf size of 1000. */
  function Compute(points: seq<Point>, s: nat, e: nat, cents: seq<Point>): (r: Assignment)
    requires s <= e <= |points| && Assignable(points, cents)
    ensures forall j :: Get(r, j) == Bucket(points, s, e, cents, j)
  {
    ComputeWith(Threshold, points, s, e, cents)
  }

  /** The sum of the list lengths over the keys 0 .. hi-1. */
  function SizeOver(m: Assignment, hi: nat): nat
  {
    if hi == 0 then 0 else SizeOver(m, hi - 1) + |Get(m, hi - 1)|
  }

  /** The sum of the bucket sizes over the clusters 0 .. hi-1. */
  function BucketTotal(points: seq<Point>, s: nat, e: nat, cents: seq<Point>, hi: nat): nat
    requires s <= e <= |points| && Assignable(points, cents)
  {
    if hi == 0 then 0 else BucketTotal(points, s, e, cents, hi - 1) + |Bucket(points, s, e, cents, hi - 1)|
  }

  /** The keys a leaf creates: cluster indices, or -1 when there are no
      centroids. */
  lemma {:induction false} LeafKeys(points: seq<Point>, s: nat, e: nat, cents: seq<Point>)
    requires s <= e <= |points| && Assignable(points, cents)
    ensures forall j :: j in AssignLeaf(points, s, e, cents) ==> -1 <= j < |cents|
    ensures |cents| > 0 ==> -1 !in AssignLeaf(points, s, e, cents)
    decreases e - s
  {
    if e > s {
      LeafKeys(points, s, e - 1, cents);
      var m := AssignLeaf(points, s, e - 1, cents);
      var n := Nearest(points[e - 1], cents);
      var r := AssignLeaf(points, s, e, cents);
      assert r == m[n := Get(m, n) + [points[e - 1]]];
      forall j | j in r
        ensures -1 <= j < |cents|
        ensures |cents| > 0 ==> j != -1
      {
        if j != n {
          assert j in m;
        }
      }
    }
  }

  /** A map that holds the buckets has, over any key range, the bucket sizes. */
  lemma {:induction false} SizeOverBuckets(m: Assignment, points: seq<Point>, s: nat, e: nat, cents: seq<Point>, hi: nat)
    requires s <= e <= |points| && Assignable(points, cents)
    requires forall j :: Get(m, j) == Bucket(points, s, e, cents, j)
    ensures SizeOver(m, hi) == BucketTotal(points, s, e, cents, hi)
  {
    if hi > 0 {
      SizeOverBuckets(m, points, s, e, cents, hi - 1);
      assert Get(m, hi - 1) == Bucket(points, s, e, cents, hi - 1);
    }
  }

  /** Extending the range by one point adds one to the total over [0, hi)
      exactly when that point's nearest centroid lies below hi. */
  lemma {:induction false} BucketTotalGrow(points: seq<Point>, s: nat, e: nat, cents: seq<Point>, hi: nat)
    requires s < e <= |points| && Assignable(points, cents)
    ensures BucketTotal(points, s, e, cents, hi)
         == BucketTotal(points, s, e - 1, cents, hi) + (if 0 <= Nearest(points[e - 1], cents) < hi then 1 else 0)
  {
    if hi > 0 {
      BucketTotalGrow(points, s, e, cents, hi - 1);
    }
  }

  /** Every point of [s, e) lands in exactly one cluster's bucket: with at
      least one centroid, the buckets together hold e - s points. */
  lemma {:induction false} BucketsPartition(points: seq<Point>, s: nat, e: nat, cents: seq<Point>)
    requires s <= e <= |points| && Assignable(points, cents) && |cents| > 0
    ensures BucketTotal(points, s, e, cents, |cents|) == e - s
    decreases e - s
  {
    if e > s {
      BucketsPartition(points, s, e - 1, cents);
      BucketTotalGrow(points, s, e, cents, |cents|);
    } else {
      BucketTotalEmpty(points, s, cents, |cents|);
    }
  }

  lemma {:induction false} BucketTotalEmpty(points: seq<Point>, s: nat, cents: seq<Point>, hi: nat)
    requires s <= |points| && Assignable(points, cents)
    ensures BucketTotal(points, s, s, cents, hi) == 0
  {
    if hi > 0 {
      BucketTotalEmpty(points, s, cents, hi - 1);
    }
  }

  /** `mergeIntoClusters`: cluster j gets list j appended after its current
      members, for 0 <= j < |clusters|; every other key is dropped. Centroids
      are not touched. */
  function MergeIntoClusters(m: Assignment, cs: seq<Cluster>): (r: seq<Cluster>)
    ensures |r| == |cs|
    ensures forall j :: 0 <= j < |cs| ==> r[j].centroid == cs[j].centroid
    ensures forall j :: 0 <= j < |cs| ==> r[j].members == cs[j].members + Get(m, j)
  {
    seq(|cs|, j requires 0 <= j < |cs| => cs[j].(members := cs[j].members + Get(m, j)))
  }

  /** What the serial merge adds: exactly the lists of the keys 0 .. |cs|-1. */
  lemma {:induction false} MergeIntoClustersCount(m: Assignment, cs: seq<Cluster>)
    ensures MemberCount(MergeIntoClusters(m, cs)) == MemberCount(cs) + SizeOver(m, |cs|)
  {
    if |cs| > 0 {
      var cs' := cs[..|cs| - 1];
      MergeIntoClustersCount(m, cs');
      assert MergeIntoClusters(m, cs)[..|cs| - 1] == MergeIntoClusters(m, cs');
    }
  }

  /** Clusters whose member lists are the buckets, in cluster order, hold
      as many members as the buckets together. */
  lemma {:induction false} MemberCountOfBuckets(cs: seq<Cluster>, points: seq<Point>, s: nat, e: nat, cents: seq<Point>)
    requires s <= e <= |points| && Assignable(points, cents)
    requires forall j :: 0 <= j < |cs| ==> cs[j].members == Bucket(points, s, e, cents, j)
    ensures MemberCount(cs) == BucketTotal(points, s, e, cents, |cs|)
  {
    if |cs| > 0 {
      MemberCountOfBuckets(cs[..|cs| - 1], points, s, e, cents);
    }
  }

  /** The whole assignment step adds every point to exactly one cluster: the
      merge of the root map grows the total member count by the number of
      points. */
  lemma {:induction false} AssignAddsEveryPoint(points: seq<Point>, cs: seq<Cluster>)
    requires |cs| > 0 && Assignable(points, Centroids(cs))
    ensures MemberCount(MergeIntoClusters(Compute(points, 0, |points|, Centroids(cs)), cs)) == MemberCount(cs) + |points|
  {
    var cents := Centroids(cs);
    var m := Compute(points, 0, |points|, cents);
    MergeIntoClustersCount(m, cs);
    SizeOverBuckets(m, points, 0, |points|, cents, |cs|);
    BucketsPartition(points, 0, |points|, cents);
  }
}
