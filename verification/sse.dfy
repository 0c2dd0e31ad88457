/** The objective function: the sum over all clusters of the squared
    distances from each member to its cluster's centroid. */
module Sse {
  import opened Wrappers
  import opened Points
  import opened Clusters
  import opened DistanceUtils

  /** Every member of the cluster has the centroid's dimension, so no distance
      in the sum throws. */
  predicate Consistent(c: Cluster) {
    forall j :: 0 <= j < |c.members| ==> c.members[j].Dim() == c.centroid.Dim()
  }

  predicate AllConsistent(cs: seq<Cluster>) {
    forall i :: 0 <= i < |cs| ==> Consistent(cs[i])
  }

  /** The squared distances from the members to the centroid, in member order. */
  function MemberSse(ms: seq<Point>, centroid: Point): (r: real)
    requires forall j :: 0 <= j < |ms| ==> ms[j].Dim() == centroid.Dim()
    ensures r >= 0.0
  {
    if |ms| == 0 then 0.0
    else MemberSse(ms[..|ms| - 1], centroid) + SqDist(ms[|ms| - 1], centroid)
  }

  /** One cluster's contribution to the objective. */
  function ClusterSse(c: Cluster): real
    requires Consistent(c)
  {
    MemberSse(c.members, c.centroid)
  }

  /** The objective over a list of clusters, added in cluster order. */
  function Total(cs: seq<Cluster>): (r: real)
    requires AllConsistent(cs)
    ensures r >= 0.0
  {
    if |cs| == 0 then 0.0 else Total(cs[..|cs| - 1]) + ClusterSse(cs[|cs| - 1])
  }

  /** `SSECalculator.computeSSE`: the nested loop over clusters and members.
      The first member whose dimension differs from its centroid's makes the
      distance computation throw. */
  method ComputeSSE(cs: seq<Cluster>) returns (r: Result<real>)
    ensures r.Err? <==> !AllConsistent(cs)
    ensures r.Err? ==> r.error == DimensionMismatch
    ensures r.Ok? ==> AllConsistent(cs) && r.value == Total(cs)
  {
    var sse := 0.0;
    var i := 0;
    while i < |cs|
      invariant 0 <= i <= |cs|
      invariant AllConsistent(cs[..i])
      invariant sse == Total(cs[..i])
    {
      var c := cs[i];
      var part := 0.0;
      var j := 0;
      while j < |c.members|
        invariant 0 <= j <= |c.members|
        invariant forall t :: 0 <= t < j ==> c.members[t].Dim() == c.centroid.Dim()
        invariant part == MemberSse(c.members[..j], c.centroid)
      {
        var dist := Distance(c.members[j], c.centroid);
        if dist.Err? {
          assert !Consistent(cs[i]);
          return Err(DimensionMismatch);
        }
        assert c.members[..j + 1][..j] == c.members[..j];
        part := part + dist.value;
        j := j + 1;
      }
      assert c.members[..j] == c.members;
      assert cs[..i + 1][..i] == cs[..i];
      sse := sse + part;
      i := i + 1;
    }
    assert cs[..i] == cs;
    return Ok(sse);
  }

  /** Appending a cluster adds exactly that cluster's own contribution. */
  lemma TotalAppend(cs: seq<Cluster>, c: Cluster)
    requires AllConsistent(cs) && Consistent(c)
    ensures Total(cs + [c]) == Total(cs) + ClusterSse(c)
  {
    assert (cs + [c])[..|cs|] == cs;
  }

  /** The objective of a concatenation is the sum of the objectives. */
  lemma {:induction false} TotalConcat(a: seq<Cluster>, b: seq<Cluster>)
    requires AllConsistent(a) && AllConsistent(b)
    ensures Total(a + b) == Total(a) + Total(b)
  {
    if |b| > 0 {
      var b' := b[..|b| - 1];
      TotalConcat(a, b');
      assert (a + b)[..|a + b| - 1] == a + b';
    } else {
      assert a + b == a;
    }
  }

  /** Clusters without members contribute nothing. */
  lemma {:induction false} TotalNoMembers(cs: seq<Cluster>)
    requires forall i :: 0 <= i < |cs| ==> |cs[i].members| == 0
    ensures AllConsistent(cs) && Total(cs) == 0.0
  {
    if |cs| > 0 {
      TotalNoMembers(cs[..|cs| - 1]);
    }
  }

  lemma {:induction false} MemberSseAtCentroid(ms: seq<Point>, centroid: Point)
    requires forall j :: 0 <= j < |ms| ==> ms[j] == centroid
    ensures MemberSse(ms, centroid) == 0.0
  {
    if |ms| > 0 {
      MemberSseAtCentroid(ms[..|ms| - 1], centroid);
      SqDistSelf(centroid);
    }
  }

  /** When every member coincides with its centroid the objective is zero. */
  lemma {:induction false} TotalAtCentroids(cs: seq<Cluster>)
    requires forall i, j :: 0 <= i < |cs| && 0 <= j < |cs[i].members| ==> cs[i].members[j] == cs[i].centroid
    ensures AllConsistent(cs) && Total(cs) == 0.0
  {
    if |cs| > 0 {
      TotalAtCentroids(cs[..|cs| - 1]);
      MemberSseAtCentroid(cs[|cs| - 1].members, cs[|cs| - 1].centroid);
    }
  }
}
