/** The driver loop both engines share: run an iteration step while the last
    step has not reported convergence and fewer than maxIterations steps have
    run. The engines differ only in the step they plug in. */
module EngineLoop {
  import opened Clusters
  import opened RecomputeTask

  /** What a run ends with: the final clusters, the number of iterations
      performed, and whether the last one reported convergence. */
  datatype RunResult = RunResult(clusters: seq<Cluster>, iterations: nat, converged: bool)

  /** One iteration: the clusters it starts from, to the clusters it leaves
      and its convergence flag. */
  type StepFn = seq<Cluster> -> Recomputed

  /** The loop from iteration number `done` on. */
  function LoopFrom(step: StepFn, cs: seq<Cluster>, maxIterations: nat, done: nat): RunResult
    requires done < maxIterations
    decreases maxIterations - done
  {
    var s := step(cs);
    if s.converged || done + 1 == maxIterations then RunResult(s.clusters, done + 1, s.converged)
    else LoopFrom(step, s.clusters, maxIterations, done + 1)
  }

  /** `converged = false; iteration = 0; while (!converged && iteration <
      maxIterations) { ...; converged = step; iteration++; }` */
  function Loop(step: StepFn, cs: seq<Cluster>, maxIterations: nat): RunResult
    requires maxIterations >= 1
  {
    LoopFrom(step, cs, maxIterations, 0)
  }

  /** The reference the loop is measured against: the clusters after n
      steps, with no early stop. */
  function IterateN(step: StepFn, cs: seq<Cluster>, n: nat): seq<Cluster> {
    if n == 0 then cs else step(IterateN(step, cs, n - 1)).clusters
  }

  /** Whether step number n (counting from 1) reports convergence. */
  predicate ConvergedAt(step: StepFn, cs: seq<Cluster>, n: nat)
    requires n >= 1
  {
    step(IterateN(step, cs, n - 1)).converged
  }

  /** No step before number n reports convergence. */
  predicate NotConvergedBefore(step: StepFn, cs: seq<Cluster>, n: nat) {
    forall t :: 1 <= t < n ==> !ConvergedAt(step, cs, t)
  }

  lemma {:induction false} LoopFromSpec(step: StepFn, cs0: seq<Cluster>, cs: seq<Cluster>, maxIterations: nat, done: nat)
    requires done < maxIterations
    requires cs == IterateN(step, cs0, done)
    requires NotConvergedBefore(step, cs0, done + 1)
    ensures var r := LoopFrom(step, cs, maxIterations, done);
      && done < r.iterations <= maxIterations
      && r.clusters == IterateN(step, cs0, r.iterations)
      && (r.converged <==> ConvergedAt(step, cs0, r.iterations))
      && NotConvergedBefore(step, cs0, r.iterations)
      && (!r.converged ==> r.iterations == maxIterations)
    decreases maxIterations - done
  {
    var s := step(cs);
    assert IterateN(step, cs0, done + 1) == s.clusters;
    assert ConvergedAt(step, cs0, done + 1) == s.converged;
    if !(s.converged || done + 1 == maxIterations) {
      assert NotConvergedBefore(step, cs0, done + 2) by {
        forall t | 1 <= t < done + 2
          ensures !ConvergedAt(step, cs0, t)
        {
          if t < done + 1 {
          }
        }
      }
      LoopFromSpec(step, cs0, s.clusters, maxIterations, done + 1);
    }
  }

  /** The loop runs at least once and at most maxIterations times; it stops
      right after the first step that reports convergence and otherwise runs
      exactly maxIterations times; its clusters are those the reference
      reaches after that many steps. */
  lemma LoopCharacterized(step: StepFn, cs: seq<Cluster>, maxIterations: nat)
    requires maxIterations >= 1
    ensures var r := Loop(step, cs, maxIterations);
      && 1 <= r.iterations <= maxIterations
      && r.clusters == IterateN(step, cs, r.iterations)
      && (r.converged <==> ConvergedAt(step, cs, r.iterations))
      && (forall t :: 1 <= t < r.iterations ==> !ConvergedAt(step, cs, t))
      && (!r.converged ==> r.iterations == maxIterations)
  {
    LoopFromSpec(step, cs, cs, maxIterations, 0);
    var r := Loop(step, cs, maxIterations);
    assert NotConvergedBefore(step, cs, r.iterations);
  }

  /** A step that reports convergence on every input ends the loop after
      exactly one iteration. */
  lemma AlwaysConvergedRunsOnce(step: StepFn, cs: seq<Cluster>, maxIterations: nat)
    requires maxIterations >= 1
    requires forall c :: step(c).converged
    ensures Loop(step, cs, maxIterations) == RunResult(step(cs).clusters, 1, true)
  {
  }

  /** Two steps that agree on every input drive the loop identically. */
  lemma {:induction false} LoopFromCongruent(f: StepFn, g: StepFn, cs: seq<Cluster>, maxIterations: nat, done: nat)
    requires done < maxIterations
    requires forall c :: f(c) == g(c)
    ensures LoopFrom(f, cs, maxIterations, done) == LoopFrom(g, cs, maxIterations, done)
    decreases maxIterations - done
  {
    var s := f(cs);
    if !(s.converged || done + 1 == maxIterations) {
      LoopFromCongruent(f, g, s.clusters, maxIterations, done + 1);
    }
  }

  /** A step that keeps the number of clusters keeps it for any number of
      steps. */
  lemma {:induction false} IterateNLength(step: StepFn, cs: seq<Cluster>, n: nat)
    requires forall c :: |step(c).clusters| == |c|
    ensures |IterateN(step, cs, n)| == |cs|
  {
    if n > 0 {
      IterateNLength(step, cs, n - 1);
    }
  }

  /** A property every step preserves holds after any number of steps. */
  lemma {:induction false} IterateNKeeps(step: StepFn, inv: seq<Cluster> -> bool, cs: seq<Cluster>, n: nat)
    requires forall c :: inv(c) ==> inv(step(c).clusters)
    requires inv(cs)
    ensures inv(IterateN(step, cs, n))
  {
    if n > 0 {
      IterateNKeeps(step, inv, cs, n - 1);
    }
  }
}
