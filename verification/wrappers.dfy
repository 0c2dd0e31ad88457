/** Failure-compatible result types and the exceptions the clustering engine
    can raise. A Java method that throws becomes a function returning `Err`. */
module Wrappers {

  /** The exceptions raised by the core, one constructor per distinct cause. */
  datatype Error =
    // IllegalArgumentException
    | EmptyPoint                   // a point with zero coordinates
    | DimensionMismatch            // distance between points of different dimension
    | NonPositiveK
    | NonPositiveMaxIterations
    | NegativeTolerance
    | BadInitialClusters           // null initial clusters, or a count different from k
    | EmptyPoints                  // a null or empty point list
    | KExceedsPoints               // k greater than the number of points
    | NullConfig
    | NonPositiveRestarts
    // IndexOutOfBoundsException
    | IndexOutOfBounds
  {
    /** True for the causes Java reports as IllegalArgumentException. */
    predicate IsInvalidArgument() {
      !IndexOutOfBounds?
    }
  }

  /** Stands in for a Java reference that may be null. */
  datatype Option<+T> = None | Some(value: T)

  /** The outcome of a call that either returns a value or throws. */
  datatype Result<+T> = Ok(value: T) | Err(error: Error) {

    predicate IsFailure() {
      Err?
    }

    function PropagateFailure<U>(): Result<U>
      requires Err?
    {
      Err(error)
    }

    function Extract(): T
      requires Ok?
    {
      value
    }
  }

  /** The state of a mutable object after a call, together with the exception
      the call threw, if any. Used for setters that validate their argument. */
  datatype Step<+S> = Step(state: S, thrown: Option<Error>)
}
