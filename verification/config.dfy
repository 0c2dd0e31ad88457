/** The run parameters: number of clusters, iteration cap and movement
    tolerance, validated by the constructor and by every setter. */
module KMeansConfig {
  import opened Wrappers

  datatype Config = Config(k: int, maxIterations: int, tolerance: real) {

    /** The invariant every constructed configuration keeps. */
    predicate Valid() {
      k > 0 && maxIterations > 0 && tolerance >= 0.0
    }
  }

  /** The constructor: checks k, then maxIterations, then tolerance, and
      throws on the first that fails. The getters return the stored fields. */
  function NewConfig(k: int, maxIterations: int, tolerance: real): (r: Result<Config>)
    ensures r.Ok? <==> k > 0 && maxIterations > 0 && tolerance >= 0.0
    ensures r.Ok? ==> r.value.Valid()
    ensures r.Ok? ==> r.value.k == k && r.value.maxIterations == maxIterations && r.value.tolerance == tolerance
    ensures k <= 0 ==> r == Err(NonPositiveK)
    ensures k > 0 && maxIterations <= 0 ==> r == Err(NonPositiveMaxIterations)
    ensures k > 0 && maxIterations > 0 && tolerance < 0.0 ==> r == Err(NegativeTolerance)
  {
    if k <= 0 then Err(NonPositiveK)
    else if maxIterations <= 0 then Err(NonPositiveMaxIterations)
    else if tolerance < 0.0 then Err(NegativeTolerance)
    else Ok(Config(k, maxIterations, tolerance))
  }

  /** `setK`: the constructor's check on k; a rejected call leaves the
      configuration as it was. */
  function SetK(c: Config, k: int): (r: Step<Config>)
    ensures r.thrown.Some? <==> k <= 0
    ensures r.thrown.Some? ==> r.thrown.value == NonPositiveK && r.state == c
    ensures r.thrown.None? ==> r.state.k == k
    ensures r.state.maxIterations == c.maxIterations && r.state.tolerance == c.tolerance
    ensures c.Valid() ==> r.state.Valid()
  {
    if k <= 0 then Step(c, Some(NonPositiveK)) else Step(c.(k := k), None)
  }

  /** `setMaxIterations`: the constructor's check on the iteration cap. */
  function SetMaxIterations(c: Config, maxIterations: int): (r: Step<Config>)
    ensures r.thrown.Some? <==> maxIterations <= 0
    ensures r.thrown.Some? ==> r.thrown.value == NonPositiveMaxIterations && r.state == c
    ensures r.thrown.None? ==> r.state.maxIterations == maxIterations
    ensures r.state.k == c.k && r.state.tolerance == c.tolerance
    ensures c.Valid() ==> r.state.Valid()
  {
    if maxIterations <= 0 then Step(c, Some(NonPositiveMaxIterations))
    else Step(c.(maxIterations := maxIterations), None)
  }

  /** `setTolerance`: the constructor's check on the tolerance. */
  function SetTolerance(c: Config, tolerance: real): (r: Step<Config>)
    ensures r.thrown.Some? <==> tolerance < 0.0
    ensures r.thrown.Some? ==> r.thrown.value == NegativeTolerance && r.state == c
    ensures r.thrown.None? ==> r.state.tolerance == tolerance
    ensures r.state.k == c.k && r.state.maxIterations == c.maxIterations
    ensures c.Valid() ==> r.state.Valid()
  {
    if tolerance < 0.0 then Step(c, Some(NegativeTolerance))
    else Step(c.(tolerance := tolerance), None)
  }

  /** The setters apply the constructor's checks: starting from any valid
      configuration, the three setters all succeed exactly when the
      constructor does, and then reach the configuration it builds. */
  lemma SettersAgreeWithConstructor(c: Config, k: int, maxIterations: int, tolerance: real)
    requires c.Valid()
    ensures var s1 := SetK(c, k);
            var s2 := SetMaxIterations(s1.state, maxIterations);
            var s3 := SetTolerance(s2.state, tolerance);
            && (s1.thrown.None? && s2.thrown.None? && s3.thrown.None? <==> NewConfig(k, maxIterations, tolerance).Ok?)
            && (NewConfig(k, maxIterations, tolerance).Ok? ==> s3.state == NewConfig(k, maxIterations, tolerance).value)
  {
  }
}
