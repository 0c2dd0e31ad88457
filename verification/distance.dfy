/** Euclidean distance between points, kept squared: the square root is
    monotone, so every comparison the engine makes on distances is the same
    comparison on squared distances. */
module DistanceUtils {
  import opened Wrappers
  import opened Points

  /** The square of a coordinate difference. */
  function Sq(x: real): (r: real)
    ensures r >= 0.0
  {
    x * x
  }

  /** Sum over the first n dimensions of the squared coordinate differences. */
  function SumSq(a: seq<real>, b: seq<real>, n: nat): (r: real)
    requires n <= |a| && n <= |b|
    ensures r >= 0.0
  {
    if n == 0 then 0.0
    else SumSq(a, b, n - 1) + Sq(a[n - 1] - b[n - 1])
  }

  /** The squared distance between two points of the same dimension. */
  function SqDist(a: Point, b: Point): (r: real)
    requires a.Dim() == b.Dim()
    ensures r >= 0.0
  {
    SumSq(a.coords, b.coords, a.Dim())
  }

  /** `DistanceUtils.distance`, squared: rejects points of different dimension,
      otherwise accumulates the squared differences dimension by dimension. */
  method Distance(a: Point, b: Point) returns (r: Result<real>)
    ensures r.Err? <==> a.Dim() != b.Dim()
    ensures r.Err? ==> r.error == DimensionMismatch
    ensures r.Ok? ==> r.value == SumSq(a.coords, b.coords, a.Dim())
  {
    if |a.coords| != |b.coords| {
      return Err(DimensionMismatch);
    }
    var sum := 0.0;
    var i := 0;
    while i < |a.coords|
      invariant 0 <= i <= |a.coords|
      invariant sum == SumSq(a.coords, b.coords, i)
    {
      var diff := a.coords[i] - b.coords[i];
      sum := sum + diff * diff;
      i := i + 1;
    }
    return Ok(sum);
  }

  lemma {:induction false} SumSqSymmetric(a: seq<real>, b: seq<real>, n: nat)
    requires n <= |a| && n <= |b|
    ensures SumSq(a, b, n) == SumSq(b, a, n)
  {
    if n > 0 {
      SumSqSymmetric(a, b, n - 1);
      assert Sq(a[n - 1] - b[n - 1]) == Sq(b[n - 1] - a[n - 1]);
    }
  }

  /** Distance does not depend on the order of its arguments. */
  lemma SqDistSymmetric(a: Point, b: Point)
    requires a.Dim() == b.Dim()
    ensures SqDist(a, b) == SqDist(b, a)
  {
    SumSqSymmetric(a.coords, b.coords, a.Dim());
  }

  lemma {:induction false} SumSqSelf(a: seq<real>, n: nat)
    requires n <= |a|
    ensures SumSq(a, a, n) == 0.0
  {
    if n > 0 {
      SumSqSelf(a, n - 1);
    }
  }

  /** The distance from a point to itself is zero. */
  lemma SqDistSelf(a: Point)
    ensures SqDist(a, a) == 0.0
  {
    SumSqSelf(a.coords, a.Dim());
  }
}
