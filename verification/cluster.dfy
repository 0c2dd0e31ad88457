/** A cluster: a centroid and the ordered list of points currently assigned
    to it. Java mutates a `Cluster` in place; here each mutator returns the
    cluster as it is after the call. */
module Clusters {
  import opened Wrappers
  import opened Points

  datatype Cluster = Cluster(centroid: Point, members: seq<Point>)

  /** The centroids of a list of clusters, in order. */
  function Centroids(cs: seq<Cluster>): (r: seq<Point>)
    ensures |r| == |cs|
    ensures forall i {:trigger r[i]} :: 0 <= i < |cs| ==> r[i] == cs[i].centroid
  {
    seq(|cs|, i requires 0 <= i < |cs| => cs[i].centroid)
  }

  /** The total number of members over a list of clusters. */
  function MemberCount(cs: seq<Cluster>): nat
  {
    if |cs| == 0 then 0 else MemberCount(cs[..|cs| - 1]) + |cs[|cs| - 1].members|
  }

  /** The count depends only on the member lists. */
  lemma {:induction false} MemberCountOfMembers(a: seq<Cluster>, b: seq<Cluster>)
    requires |a| == |b|
    requires forall j :: 0 <= j < |a| ==> a[j].members == b[j].members
    ensures MemberCount(a) == MemberCount(b)
  {
    if |a| > 0 {
      MemberCountOfMembers(a[..|a| - 1], b[..|b| - 1]);
    }
  }

  /** `new Cluster(centroid)`: the given centroid and no members. */
  function NewCluster(centroid: Point): (r: Cluster)
    ensures r.centroid == centroid
    ensures |r.members| == 0
  {
    Cluster(centroid, [])
  }

  /** `addPoint`: appends at the end, keeping the earlier members in order. */
  function AddPoint(c: Cluster, p: Point): (r: Cluster)
    ensures r.centroid == c.centroid
    ensures |r.members| == |c.members| + 1
    ensures r.members[..|c.members|] == c.members
    ensures r.members[|c.members|] == p
  {
    c.(members := c.members + [p])
  }

  /** `clearPoints`: no members left, centroid untouched. */
  function ClearPoints(c: Cluster): (r: Cluster)
    ensures r.centroid == c.centroid
    ensures |r.members| == 0
  {
    c.(members := [])
  }

  /** `setCentroid`: the new centroid, members untouched. */
  function SetCentroid(c: Cluster, centroid: Point): (r: Cluster)
    ensures r.centroid == centroid
    ensures r.members == c.members
  {
    c.(centroid := centroid)
  }

  /** Every member has at least d coordinates, so reading coordinate i < d of
      each member does not go out of bounds. */
  predicate Covers(ms: seq<Point>, d: nat) {
    forall j :: 0 <= j < |ms| ==> d <= ms[j].Dim()
  }

  /** The sum of coordinate i over the members, added in member order. */
  function CoordSum(ms: seq<Point>, i: nat): real
    requires Covers(ms, i + 1)
  {
    if |ms| == 0 then 0.0 else CoordSum(ms[..|ms| - 1], i) + ms[|ms| - 1].coords[i]
  }

  /** The per-dimension arithmetic mean of the members. */
  function Mean(ms: seq<Point>, d: nat): (r: seq<real>)
    requires |ms| > 0 && Covers(ms, d)
    ensures |r| == d
  {
    seq(d, i requires 0 <= i < d => CoordSum(ms, i) / (|ms| as real))
  }

  /** `recomputeCentroid`: an empty cluster is left as it is; otherwise the
      centroid becomes the mean of the members, in the centroid's dimension. */
  function Recompute(c: Cluster): (r: Cluster)
    requires Covers(c.members, c.centroid.Dim())
    ensures r.members == c.members
    ensures r.centroid.Dim() == c.centroid.Dim()
    ensures |c.members| == 0 ==> r == c
    ensures |c.members| > 0 ==>
      forall i :: 0 <= i < c.centroid.Dim() ==>
        r.centroid.coords[i] * (|c.members| as real) == CoordSum(c.members, i)
  {
    if |c.members| == 0 then c
    else c.(centroid := Point(Mean(c.members, c.centroid.Dim())))
  }

  lemma {:induction false} CoordSumConstant(ms: seq<Point>, q: Point, i: nat)
    requires i < q.Dim()
    requires forall j :: 0 <= j < |ms| ==> ms[j] == q
    ensures CoordSum(ms, i) == (|ms| as real) * q.coords[i]
  {
    if |ms| > 0 {
      CoordSumConstant(ms[..|ms| - 1], q, i);
    }
  }

  /** A cluster whose members are all the same point q moves its centroid
      exactly onto q. */
  lemma RecomputeIdentical(c: Cluster, q: Point)
    requires |c.members| > 0 && q.Dim() == c.centroid.Dim()
    requires forall j :: 0 <= j < |c.members| ==> c.members[j] == q
    ensures Recompute(c).centroid == q
  {
    var n := |c.members| as real;
    var m := Mean(c.members, c.centroid.Dim());
    forall i | 0 <= i < q.Dim()
      ensures m[i] == q.coords[i]
    {
      CoordSumConstant(c.members, q, i);
      assert m[i] == (n * q.coords[i]) / n;
    }
    assert m == q.coords;
  }

  /** `recomputeCentroid` on any cluster: reading coordinate i of a member
      with fewer coordinates than the centroid throws, and the cluster keeps
      its old centroid; otherwise the result is `Recompute`. */
  function TryRecompute(c: Cluster): (r: Result<Cluster>)
    ensures r.Err? <==> exists j :: 0 <= j < |c.members| && c.members[j].Dim() < c.centroid.Dim()
    ensures r.Err? ==> r.error == IndexOutOfBounds
    ensures r.Ok? ==> r.value == Recompute(c)
  {
    if Covers(c.members, c.centroid.Dim()) then Ok(Recompute(c)) else Err(IndexOutOfBounds)
  }

  /** The first d coordinates of p added to the running sums, read with
      `getCoordinate`, which throws once p has fewer than d coordinates. */
  method AddCoordinates(sums: seq<real>, p: Point) returns (r: Result<seq<real>>)
    ensures r.Err? <==> p.Dim() < |sums|
    ensures r.Err? ==> r.error == IndexOutOfBounds
    ensures r.Ok? ==> |r.value| == |sums| && forall t :: 0 <= t < |sums| ==> r.value[t] == sums[t] + p.coords[t]
  {
    var acc := sums;
    var i := 0;
    while i < |sums|
      invariant 0 <= i <= |sums| && |acc| == |sums|
      invariant i <= p.Dim()
      invariant forall t :: 0 <= t < i ==> acc[t] == sums[t] + p.coords[t]
      invariant forall t :: i <= t < |sums| ==> acc[t] == sums[t]
    {
      var x := GetCoordinate(p, i);
      if x.Err? {
        return Err(IndexOutOfBounds);
      }
      acc := acc[i := acc[i] + x.value];
      i := i + 1;
    }
    return Ok(acc);
  }

  /** `recomputeCentroid` as the Java code runs it: a first pass adds every
      member's coordinates into an array of sums, a second divides by the
      member count. */
  method RecomputeCentroid(c: Cluster) returns (r: Result<Cluster>)
    ensures r == TryRecompute(c)
  {
    var ms := c.members;
    if |ms| == 0 {
      return Ok(c);
    }
    var d := c.centroid.Dim();
    var sums := seq(d, _ => 0.0);
    var j := 0;
    while j < |ms|
      invariant 0 <= j <= |ms| && |sums| == d
      invariant Covers(ms[..j], d)
      invariant forall t :: 0 <= t < d ==> sums[t] == CoordSum(ms[..j], t)
    {
      var added := AddCoordinates(sums, ms[j]);
      if added.Err? {
        return Err(IndexOutOfBounds);
      }
      assert ms[..j + 1][..j] == ms[..j];
      sums := added.value;
      j := j + 1;
    }
    assert ms[..|ms|] == ms;
    var i := 0;
    while i < d
      invariant 0 <= i <= d && |sums| == d
      invariant forall t :: 0 <= t < i ==> sums[t] == CoordSum(ms, t) / (|ms| as real)
      invariant forall t :: i <= t < d ==> sums[t] == CoordSum(ms, t)
    {
      sums := sums[i := sums[i] / (|ms| as real)];
      i := i + 1;
    }
    assert sums == Mean(ms, d);
    r := Ok(c.(centroid := Point(sums)));
  }
}
