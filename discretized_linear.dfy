/** Model of src/discretized_linear.py: the leaf utility `approximate_utility`, minus the property on
    fire summed over the observed regions, and the `sparse_sampling` variant whose trials do not copy
    the grid (`grid_cp = grid`), so every trial of every action, and every search below them, changes
    the one grid the caller passed in, one after the other. */
module DiscretizedLinear {
  import opened Search
  import opened Wildfire
  import WildfireProperties

  /** The defaults of `m` and `gamma`, which every recursive call falls back to. */
  const DefaultM: int := 10
  const DefaultGamma: real := 0.95

  /** `approximate_utility(grid)` over the regions `grid.observation()[0]`: it starts at `0.0` and
      takes off `fire * property` region by region, so it is minus the property on fire, and never
      positive when no property is negative. */
  method ApproximateUtility(regions: Grid) returns (utility: real)
    ensures utility == -Exposure(regions)
    ensures NoNegativeProperty(regions) ==> utility <= 0.0
  {
    utility := 0.0;
    var i := 0;
    while i < |regions|
      invariant 0 <= i <= |regions|
      invariant utility == -GridSum(regions[..i], AtRisk)
    {
      var row := regions[i];
      var j := 0;
      while j < |row|
        invariant 0 <= j <= |row|
        invariant utility == -(GridSum(regions[..i], AtRisk) + RowSum(row[..j], AtRisk))
      {
        var region := row[j];
        utility := utility - (if region.fire then region.property else 0.0);
        assert row[..j + 1][..j] == row[..j];
        j := j + 1;
      }
      assert row[..j] == row;
      assert regions[..i + 1][..i] == regions[..i];
      i := i + 1;
    }
    assert regions[..i] == regions;
    if NoNegativeProperty(regions) {
      WildfireProperties.ExposureBounds(regions);
    }
  }

  /** The leaf value: minus the property on fire in the observed regions. */
  function Utility<S>(observe: S -> Grid, s: S): real {
    -Exposure(observe(s))
  }

  /** The pair the search returns, and the state it leaves the one shared grid in. */
  datatype Outcome<A, S> = Outcome(choice: Choice<A>, state: S)

  /** The values found so far, and the state of the shared grid after finding them. */
  datatype Progress<S> = Progress(vals: seq<real>, state: S)

  /** A trial's score `r + gamma * u'` and the state the shared grid is left in. */
  datatype Scored<S> = Scored(score: real, state: S)

  /** `sparse_sampling(grid, d, m, gamma)` for a grid in state `s` whose action list is `acts`; trial
      `i` of action `acts[k]` uses the draws named by `seed + [k, i]`. */
  function Plan<S, A>(dyn: Dynamics<S, A>, observe: S -> Grid, acts: seq<A>, s: S, d: int, m: int, gamma: real,
                      seed: Seed): (o: Outcome<A, S>)
    ensures d <= 0 ==> o == Outcome(Choice(None, Finite(Utility(observe, s))), s)
    ensures o.choice.value.NegInf? <==> d > 0 && |acts| == 0
    ensures o.choice.action.None? <==> d <= 0 || |acts| == 0
    decreases Count(d), 2, 0
  {
    if d <= 0 then Outcome(Choice(None, Finite(Utility(observe, s))), s)
    else
      var p := Scan(dyn, observe, acts, s, d, m, gamma, seed, |acts|);
      Outcome(ArgMax(acts, p.vals), p.state)
  }

  /** The averaged `u` of each of the actions `acts[..k]`, the trials of each running on the state the
      trials before them left. */
  function Scan<S, A>(dyn: Dynamics<S, A>, observe: S -> Grid, acts: seq<A>, s: S, d: int, m: int, gamma: real,
                      seed: Seed, k: nat): (p: Progress<S>)
    requires d > 0 && k <= |acts|
    ensures |p.vals| == k
    decreases Count(d), 1, k
  {
    if k == 0 then Progress([], s)
    else
      var before := Scan(dyn, observe, acts, s, d, m, gamma, seed, k - 1);
      var run := Run(dyn, observe, acts, k - 1, before.state, d, m, gamma, seed, Count(m));
      Progress(before.vals + [Accumulate(run.vals, m)], run.state)
  }

  /** The scores of the first `t` trials of `acts[ai]`, each on the state the one before left. */
  function Run<S, A>(dyn: Dynamics<S, A>, observe: S -> Grid, acts: seq<A>, ai: nat, s: S, d: int, m: int,
                     gamma: real, seed: Seed, t: nat): (p: Progress<S>)
    requires d > 0 && ai < |acts|
    ensures |p.vals| == t
    decreases Count(d), 0, t
  {
    if t == 0 then Progress([], s)
    else
      var before := Run(dyn, observe, acts, ai, s, d, m, gamma, seed, t - 1);
      var trial := Trial(dyn, observe, acts, acts[ai], before.state, d, gamma, seed + [ai, t - 1]);
      Progress(before.vals + [trial.score], trial.state)
  }

  /** One trial on the shared grid: place `a`, transition, search one level down with `m = 10` and
      `gamma = .95` whatever the caller passed, and score `r + gamma * u'`. */
  function Trial<S, A>(dyn: Dynamics<S, A>, observe: S -> Grid, acts: seq<A>, a: A, s: S, d: int, gamma: real,
                       here: Seed): Scored<S>
    requires d > 0 && |acts| > 0
    decreases Count(d), 0, 0
  {
    var step := Step(dyn, s, a, here);
    var below := Plan(dyn, observe, acts, step.next, d - 1, DefaultM, DefaultGamma, here);
    Scored(step.reward + gamma * below.choice.value.r, below.state)
  }

  /** `sparse_sampling(grid, d, m, gamma)`; it changes the grid it is given. */
  method SparseSampling<S, A>(observe: S -> Grid, acts: seq<A>, grid: Simulator<S, A>, d: int, seed: Seed,
                              m: int := DefaultM, gamma: real := DefaultGamma) returns (best: Choice<A>)
    modifies grid
    ensures best == Plan(grid.dyn, observe, acts, old(grid.state), d, m, gamma, seed).choice
    ensures grid.state == Plan(grid.dyn, observe, acts, old(grid.state), d, m, gamma, seed).state
    decreases Count(d), 2
  {
    if d <= 0 {
      var utility := ApproximateUtility(observe(grid.state));
      return Choice(None, Finite(utility));
    }
    best := Choice(None, NegInf);
    ghost var vals: seq<real> := [];
    var ai: nat := 0;
    while ai < |acts|
      invariant ai <= |acts|
      invariant Scan(grid.dyn, observe, acts, old(grid.state), d, m, gamma, seed, ai) == Progress(vals, grid.state)
      invariant best == ArgMax(acts, vals)
    {
      var a := acts[ai];
      var u := Trials(observe, acts, ai, grid, d, seed, m, gamma);
      if Greater(u, best.value) {
        best := Choice(Some(a), Finite(u));
      }
      vals := vals + [u];
      ai := ai + 1;
    }
  }

  /** The body of the loop over actions in `sparse_sampling`: the `m` trials of `acts[ai]`, all on the
      caller's grid, accumulating `u += (r + gamma * u') / m`. */
  method Trials<S, A>(observe: S -> Grid, acts: seq<A>, ai: nat, grid: Simulator<S, A>, d: int, seed: Seed,
                      m: int, gamma: real) returns (u: real)
    requires d > 0 && ai < |acts|
    modifies grid
    ensures u == Accumulate(Run(grid.dyn, observe, acts, ai, old(grid.state), d, m, gamma, seed, Count(m)).vals, m)
    ensures grid.state == Run(grid.dyn, observe, acts, ai, old(grid.state), d, m, gamma, seed, Count(m)).state
    decreases Count(d), 1
  {
    u := 0.0;
    ghost var terms: seq<real> := [];
    var i: nat := 0;
    while i < m
      invariant i <= Count(m)
      invariant Run(grid.dyn, observe, acts, ai, old(grid.state), d, m, gamma, seed, i) == Progress(terms, grid.state)
      invariant u == Accumulate(terms, m)
    {
      ghost var trial := Trial(grid.dyn, observe, acts, acts[ai], grid.state, d, gamma, seed + [ai, i]);
      var score := TrialOnGrid(observe, acts, acts[ai], grid, d, seed + [ai, i], gamma);
      u := u + score / (m as real);
      RunSnoc(grid.dyn, observe, acts, ai, old(grid.state), d, m, gamma, seed, i);
      assert (terms + [trial.score])[..i] == terms;
      terms := terms + [trial.score];
      i := i + 1;
    }
  }

  /** One trial, with no copy: `grid_cp = grid`, so placing `a`, the transition and the search below
      all change the caller's grid. */
  method TrialOnGrid<S, A>(observe: S -> Grid, acts: seq<A>, a: A, grid: Simulator<S, A>, d: int, here: Seed,
                           gamma: real) returns (score: real)
    requires d > 0 && |acts| > 0
    modifies grid
    ensures score == Trial(grid.dyn, observe, acts, a, old(grid.state), d, gamma, here).score
    ensures grid.state == Trial(grid.dyn, observe, acts, a, old(grid.state), d, gamma, here).state
    decreases Count(d), 0
  {
    var gridCp := grid;
    gridCp.SetResources(a);
    var r := gridCp.Transition(here);
    var below := SparseSampling(observe, acts, gridCp, d - 1, here);
    score := r + gamma * below.value.r;
  }

  /** One more trial appends its score and moves the shared grid on. */
  lemma RunSnoc<S, A>(dyn: Dynamics<S, A>, observe: S -> Grid, acts: seq<A>, ai: nat, s: S, d: int, m: int,
                      gamma: real, seed: Seed, i: nat)
    requires d > 0 && ai < |acts|
    ensures var before := Run(dyn, observe, acts, ai, s, d, m, gamma, seed, i);
      var trial := Trial(dyn, observe, acts, acts[ai], before.state, d, gamma, seed + [ai, i]);
      Run(dyn, observe, acts, ai, s, d, m, gamma, seed, i + 1) == Progress(before.vals + [trial.score], trial.state)
  {
    assert seed + [ai, (i + 1) - 1] == seed + [ai, i];
  }

  /* ---- Properties of the search ---- */

  /** Action k's value is its `u` after all its trials, which start from the state the actions before
      it left the grid in. */
  lemma {:induction false} ValueOfAction<S, A>(dyn: Dynamics<S, A>, observe: S -> Grid, acts: seq<A>, s: S, d: int,
                                             m: int, gamma: real, seed: Seed, k: nat, n: nat)
    requires d > 0 && k < n <= |acts|
    ensures var start := Scan(dyn, observe, acts, s, d, m, gamma, seed, k).state;
      Scan(dyn, observe, acts, s, d, m, gamma, seed, n).vals[k]
        == Accumulate(Run(dyn, observe, acts, k, start, d, m, gamma, seed, Count(m)).vals, m)
  {
    if k < n - 1 {
      ValueOfAction(dyn, observe, acts, s, d, m, gamma, seed, k, n - 1);
    }
  }

  /** Trial i of an action runs on the state trial i - 1 left, and scores the step's reward plus `gamma`
      times the value of a search one level down run with `m = 10` and `gamma = .95` whatever the
      caller passed. */
  lemma {:induction false} TrialScore<S, A>(dyn: Dynamics<S, A>, observe: S -> Grid, acts: seq<A>, ai: nat, s: S,
                                          d: int, m: int, gamma: real, seed: Seed, i: nat, t: nat)
    requires d > 0 && ai < |acts| && i < t
    ensures var step := Step(dyn, Run(dyn, observe, acts, ai, s, d, m, gamma, seed, i).state, acts[ai], seed + [ai, i]);
      var below := Plan(dyn, observe, acts, step.next, d - 1, 10, 0.95, seed + [ai, i]);
      Run(dyn, observe, acts, ai, s, d, m, gamma, seed, t).vals[i] == step.reward + gamma * below.choice.value.r
  {
    if i < t - 1 {
      TrialScore(dyn, observe, acts, ai, s, d, m, gamma, seed, i, t - 1);
    } else {
      RunSnoc(dyn, observe, acts, ai, s, d, m, gamma, seed, i);
    }
  }

  /** With `m > 0` trials, action k's value is the mean of its trial scores. */
  lemma ValueIsMean<S, A>(dyn: Dynamics<S, A>, observe: S -> Grid, acts: seq<A>, s: S, d: int, m: int, gamma: real,
                          seed: Seed, k: nat)
    requires d > 0 && m > 0 && k < |acts|
    ensures var start := Scan(dyn, observe, acts, s, d, m, gamma, seed, k).state;
      Scan(dyn, observe, acts, s, d, m, gamma, seed, |acts|).vals[k]
        == Sum(Run(dyn, observe, acts, k, start, d, m, gamma, seed, m).vals) / (m as real)
  {
    ValueOfAction(dyn, observe, acts, s, d, m, gamma, seed, k, |acts|);
    var start := Scan(dyn, observe, acts, s, d, m, gamma, seed, k).state;
    AccumulateIsMean(Run(dyn, observe, acts, k, start, d, m, gamma, seed, m).vals, m);
  }

  /** For d > 0 and some actions, the search returns the first action whose averaged value is the
      largest, with that value; ties go to the earlier action. */
  lemma PlanPicksFirstBest<S, A>(dyn: Dynamics<S, A>, observe: S -> Grid, acts: seq<A>, s: S, d: int, m: int,
                                 gamma: real, seed: Seed)
    requires d > 0 && |acts| > 0
    ensures var vals := Scan(dyn, observe, acts, s, d, m, gamma, seed, |acts|).vals;
      exists k :: IsFirstMax(vals, k) &&
        Plan(dyn, observe, acts, s, d, m, gamma, seed).choice == Choice(Some(acts[k]), Finite(vals[k]))
  {
    ArgMaxIsFirstMax(acts, Scan(dyn, observe, acts, s, d, m, gamma, seed, |acts|).vals);
  }

  /* ---- The shared grid ---- */

  /** The `t` steps of action `acts[ai]`'s trials, in order. */
  function TrialSteps<A>(a: A, ai: nat, t: nat, seed: Seed): (steps: seq<(A, Seed)>)
    ensures |steps| == t
  {
    if t == 0 then [] else TrialSteps(a, ai, t - 1, seed) + [(a, seed + [ai, t - 1])]
  }

  /** The steps of the trials of `acts[..k]`, action after action. */
  function Schedule<A>(acts: seq<A>, k: nat, t: nat, seed: Seed): (steps: seq<(A, Seed)>)
    requires k <= |acts|
    ensures |steps| == k * t
  {
    if k == 0 then [] else Schedule(acts, k - 1, t, seed) + TrialSteps(acts[k - 1], k - 1, t, seed)
  }

  /** At depth 1 the search below each trial is a leaf, so an action's trials just step the grid. */
  lemma {:induction false} RunAtDepthOne<S, A>(dyn: Dynamics<S, A>, observe: S -> Grid, acts: seq<A>, ai: nat, s: S,
                                             m: int, gamma: real, seed: Seed, t: nat)
    requires ai < |acts|
    ensures Run(dyn, observe, acts, ai, s, 1, m, gamma, seed, t).state == Replay(dyn, s, TrialSteps(acts[ai], ai, t, seed))
  {
    if t > 0 {
      RunAtDepthOne(dyn, observe, acts, ai, s, m, gamma, seed, t - 1);
      var steps := TrialSteps(acts[ai], ai, t, seed);
      assert steps[..t - 1] == TrialSteps(acts[ai], ai, t - 1, seed);
    }
  }

  lemma {:induction false} ScanAtDepthOne<S, A>(dyn: Dynamics<S, A>, observe: S -> Grid, acts: seq<A>, s: S, m: int,
                                              gamma: real, seed: Seed, k: nat)
    requires k <= |acts|
    ensures Scan(dyn, observe, acts, s, 1, m, gamma, seed, k).state == Replay(dyn, s, Schedule(acts, k, Count(m), seed))
  {
    if k > 0 {
      var before := Scan(dyn, observe, acts, s, 1, m, gamma, seed, k - 1);
      var earlier := Schedule(acts, k - 1, Count(m), seed);
      var trials := TrialSteps(acts[k - 1], k - 1, Count(m), seed);
      calc {
        Scan(dyn, observe, acts, s, 1, m, gamma, seed, k).state;
        Run(dyn, observe, acts, k - 1, before.state, 1, m, gamma, seed, Count(m)).state;
        { RunAtDepthOne(dyn, observe, acts, k - 1, before.state, m, gamma, seed, Count(m)); }
        Replay(dyn, before.state, trials);
        { ScanAtDepthOne(dyn, observe, acts, s, m, gamma, seed, k - 1); }
        Replay(dyn, Replay(dyn, s, earlier), trials);
        { ReplayAppend(dyn, s, earlier, trials); }
        Replay(dyn, s, earlier + trials);
        Replay(dyn, s, Schedule(acts, k, Count(m), seed));
      }
    }
  }

  /** The trials do not copy the grid: a depth-1 search leaves the caller's grid as if every trial of
      every action had been applied to it in turn, `|A| * m` steps in all. */
  lemma DepthOneSharesGrid<S, A>(dyn: Dynamics<S, A>, observe: S -> Grid, acts: seq<A>, s: S, m: int, gamma: real,
                                 seed: Seed)
    ensures var steps := Schedule(acts, |acts|, Count(m), seed);
      |steps| == |acts| * Count(m) && Plan(dyn, observe, acts, s, 1, m, gamma, seed).state == Replay(dyn, s, steps)
  {
    ScanAtDepthOne(dyn, observe, acts, s, m, gamma, seed, |acts|);
  }
}
