/** Multi-start k-means: several independent runs, each from its own random
    initialisation (shuffled points, or k-means++ seeding), on either
    engine; the clustering with the lowest SSE wins, the earliest one among
    equals. The random choices and the clock readings of every restart are
    inputs here. */
module MultiStart {
  import opened Wrappers
  import opened Points
  import opened Clusters
  import opened KMeansConfig
  import opened Sse
  import opened EngineLoop
  import SequentialEngine
  import ParallelEngine
  import KMeansPlusPlus

  /** The driver's configuration, as the constructor stores it. */
  datatype MultiStartKMeans = MultiStartKMeans(
    config: Config,
    points: seq<Point>,
    numRestarts: int,
    useKMeansPlusPlus: bool,
    useParallel: bool)
  {
    /** What the constructor guarantees of every driver it builds, together
        with the invariant of the configuration it was given. */
    predicate Valid() {
      config.Valid() && |points| > 0 && numRestarts > 0
    }
  }

  /** The constructor: rejects a missing configuration, then an empty point
      list, then a restart count that is not positive. */
  function New(config: Option<Config>, points: seq<Point>, numRestarts: int,
               useKMeansPlusPlus: bool, useParallel: bool): (r: Result<MultiStartKMeans>)
    requires config.Some? ==> config.value.Valid()
    ensures r.Ok? <==> config.Some? && |points| > 0 && numRestarts > 0
    ensures config.None? ==> r == Err(NullConfig)
    ensures config.Some? && |points| == 0 ==> r == Err(EmptyPoints)
    ensures config.Some? && |points| > 0 && numRestarts <= 0 ==> r == Err(NonPositiveRestarts)
    ensures r.Ok? ==> r.value.Valid()
    ensures r.Ok? ==>
      && r.value.config == config.value && r.value.points == points
      && r.value.numRestarts == numRestarts
      && r.value.useKMeansPlusPlus == useKMeansPlusPlus && r.value.useParallel == useParallel
  {
    if config.None? then Err(NullConfig)
    else if |points| == 0 then Err(EmptyPoints)
    else if numRestarts <= 0 then Err(NonPositiveRestarts)
    else Ok(MultiStartKMeans(config.value, points, numRestarts, useKMeansPlusPlus, useParallel))
  }

  /** The random choices one restart makes and the time it takes: the order
      the shuffle leaves the points in, the index k-means++ starts from, its
      draws in [0, 1), and the milliseconds between the two clock readings. */
  datatype Chance = Chance(perm: seq<nat>, firstIndex: nat, draws: seq<real>, elapsed: int)

  /** The choices are ones the random sources can make for this driver. */
  predicate Fair(m: MultiStartKMeans, c: Chance) {
    && SequentialEngine.IsPermutation(c.perm, |m.points|)
    && c.firstIndex < |m.points|
    && m.config.k - 1 <= |c.draws|
  }

  /** k-means++ seeding installed into a fresh parallel engine. */
  function Seeded(m: MultiStartKMeans, c: Chance): (r: Result<ParallelEngine.Engine>)
    requires m.Valid() && Fair(m, c)
    ensures r.Ok? ==> r.value.config == m.config && r.value.points == m.points
    ensures r.Ok? ==> |r.value.clusters| == m.config.k
  {
    var init :- KMeansPlusPlus.InitializeClusters(m.points, m.config.k, c.firstIndex, c.draws);
    var s := ParallelEngine.SetInitialClusters(ParallelEngine.NewEngine(m.config, m.points), Some(init));
    if s.thrown.Some? then Err(s.thrown.value) else Ok(s.state)
  }

  /** The engine `runParallel` builds: a fresh one, seeded by k-means++ when
      asked. */
  function ParallelStart(m: MultiStartKMeans, c: Chance): (r: Result<ParallelEngine.Engine>)
    requires m.Valid() && Fair(m, c)
    ensures r.Ok? ==> r.value.config == m.config && r.value.points == m.points
    ensures r.Ok? && m.useKMeansPlusPlus ==> |r.value.clusters| == m.config.k
  {
    if m.useKMeansPlusPlus then Seeded(m, c) else Ok(ParallelEngine.NewEngine(m.config, m.points))
  }

  /** `runSequential`: k-means++ is still called when asked, so its argument
      checks can throw, but the engine always draws its own initial centroids
      from the shuffle. */
  function SequentialRestart(m: MultiStartKMeans, c: Chance): (r: Result<seq<Cluster>>)
    requires m.Valid() && Fair(m, c)
  {
    var seeds :- if m.useKMeansPlusPlus
      then KMeansPlusPlus.InitializeClusters(m.points, m.config.k, c.firstIndex, c.draws)
      else Ok([]);
    var init :- SequentialEngine.InitializeClusters(m.points, m.config.k, c.perm);
    if !SequentialEngine.Fits(init, m.points) then Err(DimensionMismatch)
    else Ok(SequentialEngine.Lloyd(init, m.points, m.config.tolerance, m.config.maxIterations).clusters)
  }

  /** `runSingleRestart`. On the parallel engine this is `run` as written,
      which drops every assignment, so a successful parallel restart leaves
      its clusters without members and with an SSE of 0. */
  function Restart(m: MultiStartKMeans, c: Chance): (r: Result<seq<Cluster>>)
    requires m.Valid() && Fair(m, c)
    ensures !m.useParallel ==> r == SequentialRestart(m, c)
    ensures m.useParallel && r.Ok? ==>
      MemberCount(r.value) == 0 && AllConsistent(r.value) && Total(r.value) == 0.0
  {
    if m.useParallel then
      var e :- ParallelStart(m, c);
      var run :- ParallelEngine.Run(e, c.perm);
      ParallelEngine.RunAsWrittenDiscards(e, c.perm);
      Ok(run.clusters)
    else SequentialRestart(m, c)
  }

  /** `runSingleRestart` with the assignment merged into the clusters on the
      parallel engine, as that engine evidently intends. */
  function RestartMerged(m: MultiStartKMeans, c: Chance): (r: Result<seq<Cluster>>)
    requires m.Valid() && Fair(m, c)
    ensures !m.useParallel ==> r == Restart(m, c)
  {
    if m.useParallel then
      var e :- ParallelStart(m, c);
      var run :- ParallelEngine.RunMerged(e, c.perm);
      Ok(run.clusters)
    else SequentialRestart(m, c)
  }

  /** A restart's clustering and its SSE. */
  datatype Scored = Scored(clusters: seq<Cluster>, sse: real)

  /** A restart followed by `computeSSE` on its clusters, which throws when a
      member's dimension differs from its centroid's. */
  function Outcome(m: MultiStartKMeans, c: Chance): (r: Result<Scored>)
    requires m.Valid() && Fair(m, c)
    ensures r.Ok? ==> Restart(m, c) == Ok(r.value.clusters) && r.value.sse >= 0.0
    ensures m.useParallel && r.Ok? ==> r.value.sse == 0.0 && MemberCount(r.value.clusters) == 0
  {
    var cs :- Restart(m, c);
    if AllConsistent(cs) then Ok(Scored(cs, Total(cs))) else Err(DimensionMismatch)
  }

  /** Every successful sequential restart leaves k clusters, all comparable
      with the points, that together hold every point exactly once. */
  lemma RestartShape(m: MultiStartKMeans, c: Chance)
    requires m.Valid() && Fair(m, c) && !m.useParallel
    requires Restart(m, c).Ok?
    ensures var cs := Restart(m, c).value;
      |cs| == m.config.k && SequentialEngine.Fits(cs, m.points) && MemberCount(cs) == |m.points|
  {
    var init := SequentialEngine.InitializeClusters(m.points, m.config.k, c.perm).value;
    SequentialEngine.LloydOutcome(init, m.points, m.config.tolerance, m.config.maxIterations);
  }

  /** With the merge in place, every successful restart, on either engine,
      leaves k clusters, all comparable with the points, that together hold
      every point exactly once. */
  lemma RestartMergedShape(m: MultiStartKMeans, c: Chance)
    requires m.Valid() && Fair(m, c)
    requires RestartMerged(m, c).Ok?
    ensures var cs := RestartMerged(m, c).value;
      |cs| == m.config.k && SequentialEngine.Fits(cs, m.points) && MemberCount(cs) == |m.points|
  {
    if m.useParallel {
      var e := ParallelStart(m, c).value;
      var start := ParallelEngine.StartClusters(e, c.perm).value;
      assert |start| == m.config.k;
      ParallelEngine.MergedRunIsSequential(e, c.perm);
      SequentialEngine.LloydOutcome(start, m.points, m.config.tolerance, m.config.maxIterations);
    } else {
      RestartShape(m, c);
    }
  }

  /** `deepCopyClusters`: a fresh cluster per cluster, at a copy of its
      centroid, holding copies of its members in order. Copying a point
      without coordinates makes the `Point` constructor throw. */
  function CopyClusters(cs: seq<Cluster>): (r: Result<seq<Cluster>>)
    ensures r.Ok? <==> forall i :: 0 <= i < |cs| ==> cs[i].centroid.Valid() && AllValid(cs[i].members)
    ensures r.Err? ==> r.error == EmptyPoint
    ensures r.Ok? ==> r.value == cs
  {
    if |cs| == 0 then Ok([])
    else
      var first :- CopyCluster(cs[0]);
      var rest :- CopyClusters(cs[1..]);
      assert forall i :: 1 <= i < |cs| ==> cs[i] == cs[1..][i - 1];
      Ok([first] + rest)
  }

  predicate AllValid(ps: seq<Point>) {
    forall j :: 0 <= j < |ps| ==> ps[j].Valid()
  }

  /** One cluster of the deep copy. */
  function CopyCluster(c: Cluster): (r: Result<Cluster>)
    ensures r.Ok? <==> c.centroid.Valid() && AllValid(c.members)
    ensures r.Err? ==> r.error == EmptyPoint
    ensures r.Ok? ==> r.value == c
  {
    var centroid :- NewPoint(GetCoordinates(c.centroid));
    CopyRoundTrip(c.centroid);
    var members :- CopyMembers(c.members);
    Ok(Cluster(centroid, members))
  }

  /** The member copies of one cluster, in order. */
  function CopyMembers(ms: seq<Point>): (r: Result<seq<Point>>)
    ensures r.Ok? <==> AllValid(ms)
    ensures r.Err? ==> r.error == EmptyPoint
    ensures r.Ok? ==> r.value == ms
  {
    if |ms| == 0 then Ok([])
    else
      var rest :- CopyMembers(ms[..|ms| - 1]);
      var p :- NewPoint(GetCoordinates(ms[|ms| - 1]));
      CopyRoundTrip(ms[|ms| - 1]);
      assert ms == ms[..|ms| - 1] + [ms[|ms| - 1]];
      Ok(rest + [p])
  }

  /** What `run` returns: the best clustering, its SSE, its restart number
      counting from 1, and the time all restarts took. */
  datatype MultiStartResult = MultiStartResult(clusters: seq<Cluster>, sse: real, bestRestart: int, totalTime: int)

  /** The time the first n restarts took. */
  function TotalTime(chances: seq<Chance>, n: nat): int
    requires n <= |chances|
  {
    if n == 0 then 0 else TotalTime(chances, n - 1) + chances[n - 1].elapsed
  }

  /** `runSingleRestart` followed by `computeSSE`. */
  method RunRestart(m: MultiStartKMeans, c: Chance) returns (r: Result<Scored>)
    requires m.Valid() && Fair(m, c)
    ensures r == Outcome(m, c)
  {
    var clusters: seq<Cluster>;
    if m.useParallel {
      var e := ParallelEngine.NewEngine(m.config, m.points);
      if m.useKMeansPlusPlus {
        var cents := KMeansPlusPlus.InitializeCentroidsLoop(m.points, m.config.k, c.firstIndex, c.draws);
        if cents.Err? {
          return Err(cents.error);
        }
        var init := seq(|cents.value|, t requires 0 <= t < |cents.value| => NewCluster(cents.value[t]));
        assert Centroids(init) == cents.value;
        var s := ParallelEngine.SetInitialClusters(e, Some(init));
        if s.thrown.Some? {
          return Err(s.thrown.value);
        }
        e := s.state;
      }
      var run := ParallelEngine.Run(e, c.perm);
      if run.Err? {
        return Err(run.error);
      }
      clusters := run.value.clusters;
    } else {
      if m.useKMeansPlusPlus {
        var cents := KMeansPlusPlus.InitializeCentroidsLoop(m.points, m.config.k, c.firstIndex, c.draws);
        if cents.Err? {
          return Err(cents.error);
        }
      }
      var run := SequentialEngine.Run(m.config, m.points, c.perm);
      if run.Err? {
        return Err(run.error);
      }
      clusters := run.value.clusters;
    }
    var sse := Sse.ComputeSSE(clusters);
    if sse.Err? {
      return Err(sse.error);
    }
    return Ok(Scored(clusters, sse.value));
  }

  /** Every restart's outcome, in restart order. */
  function Outcomes(m: MultiStartKMeans, chances: seq<Chance>): (r: seq<Result<Scored>>)
    requires m.Valid()
    requires forall t :: 0 <= t < |chances| ==> Fair(m, chances[t])
    ensures |r| == |chances|
  {
    seq(|chances|, t requires 0 <= t < |chances| => Outcome(m, chances[t]))
  }

  /** The scores of the first n outcomes, in order, or the exception of the
      first among them that is one. */
  function Collect(outs: seq<Result<Scored>>, n: nat): (r: Result<seq<Scored>>)
    requires n <= |outs|
    ensures r.Ok? ==> |r.value| == n
  {
    if n == 0 then Ok([])
    else
      var prev :- Collect(outs, n - 1);
      var s :- outs[n - 1];
      Ok(prev + [s])
  }

  /** Outcome t is an exception and every outcome before it a score. */
  predicate FirstFailure(outs: seq<Result<Scored>>, t: nat) {
    t < |outs| && outs[t].Err? && forall u :: 0 <= u < t ==> outs[u].Ok?
  }

  /** The collected scores are the outcomes when every outcome is a score;
      otherwise the exception is that of the first outcome that is one. */
  lemma {:induction false} CollectSpec(outs: seq<Result<Scored>>, n: nat)
    requires n <= |outs|
    ensures Collect(outs, n).Ok? <==> forall t :: 0 <= t < n ==> outs[t].Ok?
    ensures Collect(outs, n).Ok? ==> forall t :: 0 <= t < n ==> outs[t] == Ok(Collect(outs, n).value[t])
    ensures Collect(outs, n).Err? ==>
      exists t: nat :: FirstFailure(outs, t) && t < n && outs[t] == Err(Collect(outs, n).error)
  {
    if n > 0 {
      CollectSpec(outs, n - 1);
      var prev := Collect(outs, n - 1);
      if prev.Ok? && outs[n - 1].Err? {
        assert FirstFailure(outs, n - 1);
      }
    }
  }

  /** Once a prefix of the outcomes holds an exception, every longer prefix
      collects to the same exception. */
  lemma {:induction false} CollectErr(outs: seq<Result<Scored>>, n: nat, n': nat)
    requires n <= n' <= |outs|
    requires Collect(outs, n).Err?
    ensures Collect(outs, n') == Collect(outs, n)
    decreases n' - n
  {
    if n' > n {
      CollectErr(outs, n, n' - 1);
    }
  }

  /** Position b holds the lowest SSE, and no earlier position ties with it. */
  predicate IsBest(scores: seq<Scored>, b: nat) {
    && b < |scores|
    && (forall t :: 0 <= t < |scores| ==> scores[b].sse <= scores[t].sse)
    && (forall t :: 0 <= t < b ==> scores[b].sse < scores[t].sse)
  }

  /** `outs` holds the outcome of every restart, in restart order. The
      quantifier is only instantiated for restarts whose outcome is named, so
      reasoning about `outs` never has to unfold a restart. */
  predicate Matches(m: MultiStartKMeans, chances: seq<Chance>, outs: seq<Result<Scored>>)
    requires m.Valid()
    requires forall t :: 0 <= t < |chances| ==> Fair(m, chances[t])
  {
    && |outs| == |chances|
    && forall t {:trigger Outcome(m, chances[t])} :: 0 <= t < |chances| ==> outs[t] == Outcome(m, chances[t])
  }

  lemma OutcomesMatch(m: MultiStartKMeans, chances: seq<Chance>)
    requires m.Valid()
    requires forall t :: 0 <= t < |chances| ==> Fair(m, chances[t])
    ensures Matches(m, chances, Outcomes(m, chances))
  {
  }

  /** Restart t, whose outcome is position t of `outs`. */
  method RunRestartAt(m: MultiStartKMeans, chances: seq<Chance>, t: nat, ghost outs: seq<Result<Scored>>)
    returns (r: Result<Scored>)
    requires m.Valid() && t < |chances|
    requires forall u :: 0 <= u < |chances| ==> Fair(m, chances[u])
    requires Matches(m, chances, outs)
    ensures r == outs[t]
  {
    r := RunRestart(m, chances[t]);
  }

  /** The strict comparison of `run` keeps the best position: a new score
      takes over exactly when it is strictly lower than the best so far. */
  lemma BestStep(scores: seq<Scored>, b: int, s: Scored)
    requires |scores| == 0 || (0 <= b && IsBest(scores, b))
    ensures |scores| == 0 ==> IsBest(scores + [s], 0)
    ensures |scores| > 0 && s.sse < scores[b].sse ==> IsBest(scores + [s], |scores|)
    ensures |scores| > 0 && !(s.sse < scores[b].sse) ==> IsBest(scores + [s], b)
  {
  }

  /** One more outcome extends the collected scores, or is the exception. */
  lemma CollectStep(outs: seq<Result<Scored>>, n: nat, scores: seq<Scored>)
    requires n < |outs| && Collect(outs, n) == Ok(scores)
    ensures outs[n].Err? ==> Collect(outs, n + 1) == Err(outs[n].error)
    ensures outs[n].Ok? ==> Collect(outs, n + 1) == Ok(scores + [outs[n].value])
  {
  }

  /** The state `run` carries from one restart to the next: the best score so
      far (none before the first restart), its restart number, and the time
      spent. */
  datatype Best = Best(best: Option<Scored>, bestRestart: int, totalTime: int)

  /** What the state says about the scores of the restarts done so far. */
  predicate Tracks(acc: Best, scores: seq<Scored>) {
    && (|scores| == 0 <==> acc.best.None?)
    && (acc.best.Some? ==>
      && 1 <= acc.bestRestart <= |scores|
      && IsBest(scores, acc.bestRestart - 1)
      && scores[acc.bestRestart - 1] == acc.best.value)
  }

  /** The bookkeeping after one restart: add its time, and take its score as
      the best when there is none yet or it is strictly lower. */
  method Consider(acc: Best, ghost scores: seq<Scored>, restart: nat, s: Scored, elapsed: int) returns (next: Best)
    requires Tracks(acc, scores) && restart == |scores|
    ensures Tracks(next, scores + [s])
    ensures next.totalTime == acc.totalTime + elapsed
    ensures next.best == if acc.best.None? || s.sse < acc.best.value.sse then Some(s) else acc.best
  {
    BestStep(scores, acc.bestRestart - 1, s);
    var totalTime := acc.totalTime + elapsed;
    if acc.best.None? || s.sse < acc.best.value.sse {
      next := Best(Some(s), restart + 1, totalTime);
    } else {
      next := acc.(totalTime := totalTime);
    }
  }

  /** What `run` returns for the collected scores of n restarts: the
      exception of the first restart that threw, or the best score (lowest
      SSE, the earliest among equals), its 1-based restart number and the
      total time. */
  predicate Reports(all: Result<seq<Scored>>, r: Result<MultiStartResult>, n: int, totalTime: int) {
    && (r.Err? <==> all.Err?)
    && (r.Err? ==> r.error == all.error)
    && (r.Ok? ==>
      && 1 <= r.value.bestRestart <= n
      && IsBest(all.value, r.value.bestRestart - 1)
      && all.value[r.value.bestRestart - 1] == Scored(r.value.clusters, r.value.sse)
      && r.value.totalTime == totalTime)
  }

  /** After every restart has been scored, the state `run` carries reports
      the best of them. */
  lemma TracksReports(acc: Best, scores: seq<Scored>)
    requires Tracks(acc, scores) && |scores| > 0
    ensures acc.best.Some?
    ensures Reports(Ok(scores), Ok(MultiStartResult(acc.best.value.clusters, acc.best.value.sse, acc.bestRestart, acc.totalTime)),
                    |scores|, acc.totalTime)
  {
  }

  /** On the parallel engine every successful restart scores 0, so the
      strict comparison never replaces the first: a successful run reports
      restart 1, an SSE of 0 and clusters that hold no point. */
  lemma {:induction false} ParallelReportsFirst(m: MultiStartKMeans, chances: seq<Chance>, outs: seq<Result<Scored>>,
                                               r: Result<MultiStartResult>)
    requires m.Valid() && m.useParallel && |chances| == m.numRestarts
    requires forall t :: 0 <= t < |chances| ==> Fair(m, chances[t])
    requires Matches(m, chances, outs)
    requires Reports(Collect(outs, |chances|), r, m.numRestarts, TotalTime(chances, |chances|))
    requires r.Ok?
    ensures r.value.bestRestart == 1 && r.value.sse == 0.0 && MemberCount(r.value.clusters) == 0
  {
    CollectSpec(outs, |chances|);
    var all := Collect(outs, |chances|).value;
    var b := r.value.bestRestart - 1;
    ParallelOutcomeEmpty(m, chances, outs, 0);
    ParallelOutcomeEmpty(m, chances, outs, b);
  }

  /** A successful parallel restart, as `outs` records it, scores 0 and its
      clusters hold no point. */
  lemma ParallelOutcomeEmpty(m: MultiStartKMeans, chances: seq<Chance>, outs: seq<Result<Scored>>, t: nat)
    requires m.Valid() && m.useParallel && t < |chances|
    requires forall u :: 0 <= u < |chances| ==> Fair(m, chances[u])
    requires Matches(m, chances, outs) && outs[t].Ok?
    ensures outs[t].value.sse == 0.0 && MemberCount(outs[t].value.clusters) == 0
  {
    assert outs[t] == Outcome(m, chances[t]);
  }

  /** `run`: the restarts in order, each timed and scored; a restart replaces
      the best so far only when its SSE is strictly lower. The first restart
      that throws ends the whole run with its exception. */
  method Run(m: MultiStartKMeans, chances: seq<Chance>) returns (r: Result<MultiStartResult>)
    requires m.Valid() && |chances| == m.numRestarts
    requires forall t :: 0 <= t < |chances| ==> Fair(m, chances[t])
    // `Matches` holds of exactly one sequence, `Outcomes(m, chances)`
    // (OutcomesMatch, MatchesUnique), so this speaks of the restarts' outcomes.
    ensures forall outs {:trigger Collect(outs, |chances|)} :: Matches(m, chances, outs) ==>
      Reports(Collect(outs, |chances|), r, m.numRestarts, TotalTime(chances, |chances|))
    ensures m.useParallel && r.Ok? ==>
      r.value.bestRestart == 1 && r.value.sse == 0.0 && MemberCount(r.value.clusters) == 0
  {
    OutcomesMatch(m, chances);
    r := RunOver(m, chances, Outcomes(m, chances));
    if m.useParallel && r.Ok? {
      ParallelReportsFirst(m, chances, Outcomes(m, chances), r);
    }
    forall outs | Matches(m, chances, outs)
      ensures Reports(Collect(outs, |chances|), r, m.numRestarts, TotalTime(chances, |chances|))
    {
      MatchesUnique(m, chances, outs, Outcomes(m, chances));
    }
  }

  /** The outcomes of the restarts are determined by the restarts. */
  lemma MatchesUnique(m: MultiStartKMeans, chances: seq<Chance>, a: seq<Result<Scored>>, b: seq<Result<Scored>>)
    requires m.Valid()
    requires forall t :: 0 <= t < |chances| ==> Fair(m, chances[t])
    requires Matches(m, chances, a) && Matches(m, chances, b)
    ensures a == b
  {
    forall t | 0 <= t < |a| ensures a[t] == b[t] {
      assert a[t] == Outcome(m, chances[t]);
    }
  }

  /** The restart loop of `run`, against the outcomes `outs` of its restarts. */
  method RunOver(m: MultiStartKMeans, chances: seq<Chance>, ghost outs: seq<Result<Scored>>)
    returns (r: Result<MultiStartResult>)
    requires m.Valid() && |chances| == m.numRestarts
    requires forall t :: 0 <= t < |chances| ==> Fair(m, chances[t])
    requires Matches(m, chances, outs)
    ensures Reports(Collect(outs, |chances|), r, m.numRestarts, TotalTime(chances, |chances|))
  {
    var acc := Best(None, -1, 0);
    var restart := 0;
    ghost var scores: seq<Scored> := [];
    while restart < m.numRestarts
      invariant 0 <= restart <= m.numRestarts && |scores| == restart
      invariant Collect(outs, restart) == Ok(scores)
      invariant Tracks(acc, scores)
      invariant acc.totalTime == TotalTime(chances, restart)
    {
      var scored := RunRestartAt(m, chances, restart, outs);
      CollectStep(outs, restart, scores);
      if scored.Err? {
        CollectErr(outs, restart + 1, |chances|);
        return Err(scored.error);
      }
      acc := Consider(acc, scores, restart, scored.value, chances[restart].elapsed);
      scores := scores + [scored.value];
      restart := restart + 1;
    }
    TracksReports(acc, scores);
    r := Ok(MultiStartResult(acc.best.value.clusters, acc.best.value.sse, acc.bestRestart, acc.totalTime));
  }
}
