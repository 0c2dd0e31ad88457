/** A point of the data set: a fixed-length vector of real coordinates.
    Java's `Point` owns a private copy of its coordinate array; with value
    semantics every `Point` here is already such a copy. */
module Points {
  import opened Wrappers

  datatype Point = Point(coords: seq<real>) {

    /** `getDimension`: the number of coordinates. */
    function Dim(): nat {
      |coords|
    }

    /** Every point the constructor lets through has at least one dimension. */
    predicate Valid() {
      |coords| > 0
    }
  }

  /** All points of a sequence share one dimension. */
  predicate Uniform(ps: seq<Point>) {
    forall i, j :: 0 <= i < |ps| && 0 <= j < |ps| ==> ps[i].Dim() == ps[j].Dim()
  }

  /** `new Point(coords)`: rejects an empty coordinate array, otherwise keeps a
      copy of it. */
  function NewPoint(coords: seq<real>): (r: Result<Point>)
    ensures r.Err? <==> |coords| == 0
    ensures r.Err? ==> r.error == EmptyPoint
    ensures r.Ok? ==> r.value.Valid() && r.value.Dim() == |coords|
    ensures r.Ok? ==> forall i :: 0 <= i < |coords| ==> r.value.coords[i] == coords[i]
  {
    if |coords| == 0 then Err(EmptyPoint) else Ok(Point(coords))
  }

  /** `getCoordinate(i)`: the i-th coordinate; Java's array access throws for
      an index outside the point. */
  function GetCoordinate(p: Point, i: int): (r: Result<real>)
    ensures r.Ok? <==> 0 <= i < p.Dim()
    ensures r.Ok? ==> r.value == p.coords[i]
    ensures r.Err? ==> r.error == IndexOutOfBounds
  {
    if 0 <= i < |p.coords| then Ok(p.coords[i]) else Err(IndexOutOfBounds)
  }

  /** `setCoordinate(i, v)`: replaces the i-th coordinate and nothing else. */
  function SetCoordinate(p: Point, i: int, v: real): (r: Result<Point>)
    ensures r.Ok? <==> 0 <= i < p.Dim()
    ensures r.Err? ==> r.error == IndexOutOfBounds
    ensures r.Ok? ==> r.value.Dim() == p.Dim() && GetCoordinate(r.value, i) == Ok(v)
    ensures r.Ok? ==> forall j :: 0 <= j < p.Dim() && j != i ==> r.value.coords[j] == p.coords[j]
  {
    if 0 <= i < |p.coords| then Ok(Point(p.coords[i := v])) else Err(IndexOutOfBounds)
  }

  /** `getCoordinates`: a copy of the coordinates. */
  function GetCoordinates(p: Point): (r: seq<real>)
    ensures |r| == p.Dim()
    ensures forall i :: 0 <= i < p.Dim() ==> GetCoordinate(p, i) == Ok(r[i])
  {
    p.coords
  }

  /** Copying a valid point through `new Point(p.getCoordinates())`, as the
      engine's deep copies do, yields a value-equal point. */
  lemma CopyRoundTrip(p: Point)
    requires p.Valid()
    ensures NewPoint(GetCoordinates(p)) == Ok(p)
  {
  }
}
