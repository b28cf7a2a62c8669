/** Model of src/lookahead_rollouts.py: `random_rollout` follows a random resource placement for a fixed
    number of steps and returns the discounted reward; `lookahead` tries each action `m` times on a deep
    copy of the grid, scores each trial by its reward plus `gamma` times a rollout, and keeps the first
    action with the strictly largest average. */
module LookaheadRollouts {
  import opened Search
  import opened Wildfire
  import Actions
  import WildfireProperties

  const DefaultM: int := 5
  const DefaultGamma: real := 0.95
  /** The default resource probability of `random_rollout`, which `lookahead` never overrides. */
  const DefaultPp: real := 0.5

  /** What the planner reads besides the grid's dynamics: `size(s)` is `grid.n`, `cells(s)` the regions
      whose `property` and `fire` arrays the utility multiplies, and `noise(seed, i, j)` entry (i, j) of
      the `np.random.rand(n, n)` drawn at `seed`. */
  datatype Env<!S> = Env(size: S -> nat, cells: S -> Grid, noise: (Seed, nat, nat) -> real)

  /** `np.random.rand(n, n) < pp`: resources wherever the uniform draw falls below `pp`. */
  function RandomFlip(n: nat, noise: (Seed, nat, nat) -> real, seed: Seed, pp: real): (a: Actions.Action)
    ensures IsSquare(a, n)
    ensures forall i, j :: 0 <= i < n && 0 <= j < n ==> (a[i][j] <==> noise(seed, i, j) < pp)
  {
    seq(n, i requires 0 <= i < n => seq(n, j requires 0 <= j < n => noise(seed, i, j) < pp))
  }

  /** What `random_rollout` returns, and the state it leaves the grid in. */
  datatype Rollout<S> = Rollout(value: real, final: S)

  /** `random_rollout(grid, depth, gamma, pp)` on a grid in state `s`: step `depth` places a random flip
      and transitions, using the draws named by `seed`, then recurses with `seed + [0]`. */
  function RolloutOf<S>(dyn: Dynamics<S, Actions.Action>, env: Env<S>, s: S, depth: int, gamma: real, pp: real,
                        seed: Seed): (ro: Rollout<S>)
    decreases Count(depth)
  {
    if depth <= 0 then Rollout(0.0, s)
    else
      var flip := RandomFlip(env.size(s), env.noise, seed, pp);
      var step := Step(dyn, s, flip, seed);
      var rest := RolloutOf(dyn, env, step.next, depth - 1, gamma, pp, seed + [0]);
      Rollout(step.reward + gamma * rest.value, rest.final)
  }

  /** The steps of a rollout in order: each places a random flip drawn with `pp` and transitions, and
      the next step's draws are named by `seed + [0]`. */
  function Placements<S>(dyn: Dynamics<S, Actions.Action>, env: Env<S>, s: S, depth: int, pp: real,
                         seed: Seed): (steps: seq<(Actions.Action, Seed)>)
    ensures |steps| == Count(depth)
    decreases Count(depth)
  {
    if depth <= 0 then []
    else
      var flip := RandomFlip(env.size(s), env.noise, seed, pp);
      [(flip, seed)] + Placements(dyn, env, Step(dyn, s, flip, seed).next, depth - 1, pp, seed + [0])
  }

  /** The rewards `r_0, r_1, ...` the steps of a rollout return, in order. */
  function Rewards<S>(dyn: Dynamics<S, Actions.Action>, env: Env<S>, s: S, depth: int, pp: real,
                      seed: Seed): (rs: seq<real>)
    ensures |rs| == Count(depth)
    decreases Count(depth)
  {
    if depth <= 0 then []
    else
      var step := Step(dyn, s, RandomFlip(env.size(s), env.noise, seed, pp), seed);
      [step.reward] + Rewards(dyn, env, step.next, depth - 1, pp, seed + [0])
  }

  function Power(x: real, k: nat): real {
    if k == 0 then 1.0 else x * Power(x, k - 1)
  }

  /** `r_0 + gamma * r_1 + ... + gamma^(k-1) * r_(k-1)`, summed from the last term back. */
  function Discounted(rs: seq<real>, gamma: real): real {
    if rs == [] then 0.0 else Discounted(rs[..|rs| - 1], gamma) + Power(gamma, |rs| - 1) * rs[|rs| - 1]
  }

  /** `random_rollout(grid, depth, gamma, pp)`: it changes the grid it is given. */
  method RandomRollout<S>(env: Env<S>, grid: Simulator<S, Actions.Action>, depth: int, seed: Seed,
                          gamma: real := DefaultGamma, pp: real := DefaultPp) returns (v: real)
    modifies grid
    ensures v == RolloutOf(grid.dyn, env, old(grid.state), depth, gamma, pp, seed).value
    ensures grid.state == RolloutOf(grid.dyn, env, old(grid.state), depth, gamma, pp, seed).final
    decreases Count(depth)
  {
    if depth <= 0 {
      return 0.0;
    }
    var randomFlip := RandomFlip(env.size(grid.state), env.noise, seed, pp);
    grid.SetResources(randomFlip);
    var r := grid.Transition(seed);
    var rest := RandomRollout(env, grid, depth - 1, seed + [0], gamma := gamma, pp := pp);
    v := r + gamma * rest;
  }

  /** `approximate_utility(grid)`: the property on fire, `fire * property` summed over the regions. It lies
      between 0 and the total property when no property is negative, and is 0 when nothing burns. */
  function ApproximateUtility(regions: Grid): (u: real)
    ensures NoNegativeProperty(regions) ==> 0.0 <= u <= TotalProperty(regions)
    ensures NoFire(regions) ==> u == 0.0
  {
    assert NoNegativeProperty(regions) ==> 0.0 <= Exposure(regions) <= TotalProperty(regions) by {
      if NoNegativeProperty(regions) {
        WildfireProperties.ExposureBounds(regions);
      }
    }
    assert NoFire(regions) ==> Exposure(regions) == 0.0 by {
      if NoFire(regions) {
        WildfireProperties.ExposureNoFire(regions);
      }
    }
    Exposure(regions)
  }

  /** What `lookahead` returns: the tuple `(None, utility)` at depth 0 or below, the bare action
      (possibly `None`) otherwise. */
  datatype Decision<A> = Pair(choice: Choice<A>) | Bare(action: Option<A>)

  /** `lookahead(A, grid, d, m, gamma)` for a grid in state `s`; trial `i` of action `acts[k]` uses the
      draws named by `seed + [k, i]`, and its rollout those below `seed + [k, i, 0]`. */
  function LookaheadOf<S>(dyn: Dynamics<S, Actions.Action>, env: Env<S>, acts: seq<Actions.Action>, s: S, d: int,
                          m: int, gamma: real, seed: Seed): (dec: Decision<Actions.Action>)
    ensures dec.Pair? <==> d <= 0
    ensures dec.Pair? ==> dec.choice == Choice(None, Finite(ApproximateUtility(env.cells(s))))
    ensures dec.Bare? ==> (dec.action.None? <==> |acts| == 0)
  {
    if d <= 0 then Pair(Choice(None, Finite(ApproximateUtility(env.cells(s)))))
    else Bare(ArgMax(acts, Scores(dyn, env, acts, s, d, m, gamma, seed, |acts|)).action)
  }

  /** The averaged `u` of each of the actions `acts[..k]`. */
  function Scores<S>(dyn: Dynamics<S, Actions.Action>, env: Env<S>, acts: seq<Actions.Action>, s: S, d: int,
                     m: int, gamma: real, seed: Seed, k: nat): (vs: seq<real>)
    requires k <= |acts|
    ensures |vs| == k
  {
    if k == 0 then []
    else
      var terms := TrialScores(dyn, env, acts, k - 1, s, d, m, gamma, seed, Count(m));
      Scores(dyn, env, acts, s, d, m, gamma, seed, k - 1) + [Accumulate(terms, m)]
  }

  /** The scores `r + gamma * u'` of the first `t` trials of `acts[ai]`: `u'` is a rollout of depth
      `d - 1` with the caller's `gamma` but the default `pp`. */
  function TrialScores<S>(dyn: Dynamics<S, Actions.Action>, env: Env<S>, acts: seq<Actions.Action>, ai: nat, s: S,
                          d: int, m: int, gamma: real, seed: Seed, t: nat): (ts: seq<real>)
    requires ai < |acts|
    ensures |ts| == t
  {
    if t == 0 then []
    else
      TrialScores(dyn, env, acts, ai, s, d, m, gamma, seed, t - 1) + [TrialScore(dyn, env, acts[ai], s, d, gamma, DefaultPp, seed + [ai, t - 1])]
  }

  /** The score `r + gamma * u'` of one trial of action `a` whose draws are named by `here`: `u'` is a
      rollout of depth `d - 1` with resource probability `pp`. */
  function TrialScore<S>(dyn: Dynamics<S, Actions.Action>, env: Env<S>, a: Actions.Action, s: S, d: int, gamma: real,
                         pp: real, here: Seed): real
  {
    var step := Step(dyn, s, a, here);
    step.reward + gamma * RolloutOf(dyn, env, step.next, d - 1, gamma, pp, here + [0]).value
  }

  /** `lookahead(A, grid, d, m, gamma)`. The grid is only read: every trial works on a copy. */
  method Lookahead<S>(env: Env<S>, acts: seq<Actions.Action>, grid: Simulator<S, Actions.Action>, d: int,
                      seed: Seed, m: int := DefaultM, gamma: real := DefaultGamma) returns (dec: Decision<Actions.Action>)
    ensures dec == LookaheadOf(grid.dyn, env, acts, grid.state, d, m, gamma, seed)
  {
    if d <= 0 {
      return Pair(Choice(None, Finite(Exposure(env.cells(grid.state)))));
    }
    var best := Choice(None, NegInf);
    ghost var vals: seq<real> := [];
    var ai: nat := 0;
    while ai < |acts|
      invariant ai <= |acts|
      invariant vals == Scores(grid.dyn, env, acts, grid.state, d, m, gamma, seed, ai)
      invariant best == ArgMax(acts, vals)
    {
      var a := acts[ai];
      var u := Trials(env, acts, ai, grid, d, seed, m, gamma);
      if Greater(u, best.value) {
        best := Choice(Some(a), Finite(u));
      }
      vals := vals + [u];
      ai := ai + 1;
    }
    return Bare(best.action);
  }

  /** The body of the loop over actions in `lookahead`: the `m` trials of `acts[ai]`, each on a fresh
      deep copy of the grid, accumulating `u += (r + gamma * u') / m`. */
  method Trials<S>(env: Env<S>, acts: seq<Actions.Action>, ai: nat, grid: Simulator<S, Actions.Action>, d: int,
                   seed: Seed, m: int, gamma: real) returns (u: real)
    requires ai < |acts|
    ensures u == Accumulate(TrialScores(grid.dyn, env, acts, ai, grid.state, d, m, gamma, seed, Count(m)), m)
  {
    u := 0.0;
    ghost var terms: seq<real> := [];
    var i: nat := 0;
    while i < m
      invariant i <= Count(m)
      invariant terms == TrialScores(grid.dyn, env, acts, ai, grid.state, d, m, gamma, seed, i)
      invariant u == Accumulate(terms, m)
    {
      var score := Trial(env, acts[ai], grid, d, seed + [ai, i], gamma);
      u := u + score / (m as real);
      TrialScoresSnoc(grid.dyn, env, acts, ai, grid.state, d, m, gamma, seed, i);
      assert (terms + [score])[..i] == terms;
      terms := terms + [score];
      i := i + 1;
    }
  }

  /** One trial of `lookahead`: on a deep copy of the grid, place `a`, transition, roll out for `d - 1`
      steps with the default `pp`, and score `r + gamma * u'`. */
  method Trial<S>(env: Env<S>, a: Actions.Action, grid: Simulator<S, Actions.Action>, d: int, here: Seed, gamma: real)
    returns (score: real)
    ensures score == TrialScore(grid.dyn, env, a, grid.state, d, gamma, 0.5, here)
  {
    var gridCp := grid.Copy();
    gridCp.SetResources(a);
    var r := gridCp.Transition(here);
    var uPrime := RandomRollout(env, gridCp, d - 1, here + [0], gamma := gamma);
    score := r + gamma * uPrime;
  }

  /** One more trial appends its score to the list. */
  lemma TrialScoresSnoc<S>(dyn: Dynamics<S, Actions.Action>, env: Env<S>, acts: seq<Actions.Action>, ai: nat, s: S,
                           d: int, m: int, gamma: real, seed: Seed, i: nat)
    requires ai < |acts|
    ensures TrialScores(dyn, env, acts, ai, s, d, m, gamma, seed, i + 1)
         == TrialScores(dyn, env, acts, ai, s, d, m, gamma, seed, i) + [TrialScore(dyn, env, acts[ai], s, d, gamma, DefaultPp, seed + [ai, i])]
  {
    assert seed + [ai, (i + 1) - 1] == seed + [ai, i];
  }

  /* ---- Properties of the rollout ---- */

  /** Adding a first reward in front: `r + gamma * (discounted rest)`. */
  lemma {:induction false} DiscountedCons(r: real, rs: seq<real>, gamma: real)
    ensures Discounted([r] + rs, gamma) == r + gamma * Discounted(rs, gamma)
    decreases |rs|
  {
    if rs == [] {
      assert [r] + rs == [r];
      assert [r][..0] == [];
    } else {
      var init, x := rs[..|rs| - 1], rs[|rs| - 1];
      var k := |init|;
      DiscountedCons(r, init, gamma);
      assert ([r] + rs)[..k + 1] == [r] + init;
      assert Power(gamma, k + 1) * x == gamma * (Power(gamma, k) * x);
    }
  }

  /** A rollout of depth d takes exactly `max(d, 0)` steps, and its value is their discounted reward
      sum `r_0 + gamma * r_1 + ... + gamma^(d-1) * r_(d-1)`; at depth 0 or below it is `0.0` and the
      state is left as it was. */
  lemma {:induction false} RolloutIsDiscountedSum<S>(dyn: Dynamics<S, Actions.Action>, env: Env<S>, s: S, depth: int,
                                                   gamma: real, pp: real, seed: Seed)
    ensures var rs := Rewards(dyn, env, s, depth, pp, seed);
      |rs| == Count(depth) && RolloutOf(dyn, env, s, depth, gamma, pp, seed).value == Discounted(rs, gamma)
    ensures depth <= 0 ==> RolloutOf(dyn, env, s, depth, gamma, pp, seed) == Rollout(0.0, s)
    decreases Count(depth)
  {
    if depth > 0 {
      var step := Step(dyn, s, RandomFlip(env.size(s), env.noise, seed, pp), seed);
      var rest := Rewards(dyn, env, step.next, depth - 1, pp, seed + [0]);
      var tail := RolloutOf(dyn, env, step.next, depth - 1, gamma, pp, seed + [0]);
      assert Rewards(dyn, env, s, depth, pp, seed) == [step.reward] + rest;
      assert RolloutOf(dyn, env, s, depth, gamma, pp, seed).value == step.reward + gamma * tail.value;
      RolloutIsDiscountedSum(dyn, env, step.next, depth - 1, gamma, pp, seed + [0]);
      DiscountedCons(step.reward, rest, gamma);
    }
  }

  /** A rollout of depth d leaves the grid it is given in the state reached by exactly `max(d, 0)`
      random placements and transitions, applied in order to the state it started from. */
  lemma {:induction false} RolloutReplays<S>(dyn: Dynamics<S, Actions.Action>, env: Env<S>, s: S, depth: int,
                                           gamma: real, pp: real, seed: Seed)
    ensures var steps := Placements(dyn, env, s, depth, pp, seed);
      |steps| == Count(depth) && RolloutOf(dyn, env, s, depth, gamma, pp, seed).final == Replay(dyn, s, steps)
    decreases Count(depth)
  {
    if depth > 0 {
      var flip := RandomFlip(env.size(s), env.noise, seed, pp);
      var next := Step(dyn, s, flip, seed).next;
      var rest := Placements(dyn, env, next, depth - 1, pp, seed + [0]);
      assert Placements(dyn, env, s, depth, pp, seed) == [(flip, seed)] + rest;
      assert RolloutOf(dyn, env, s, depth, gamma, pp, seed).final == RolloutOf(dyn, env, next, depth - 1, gamma, pp, seed + [0]).final;
      RolloutReplays(dyn, env, next, depth - 1, gamma, pp, seed + [0]);
      ReplayAppend(dyn, s, [(flip, seed)], rest);
      assert [(flip, seed)] == [] + [(flip, seed)];
      assert Replay(dyn, s, [(flip, seed)]) == next;
    }
  }

  /* ---- Properties of the lookahead ---- */

  /** Action k's score is its `u` after all trials. */
  lemma {:induction false} ScoreOfAction<S>(dyn: Dynamics<S, Actions.Action>, env: Env<S>, acts: seq<Actions.Action>,
                                          s: S, d: int, m: int, gamma: real, seed: Seed, k: nat, n: nat)
    requires k < n <= |acts|
    ensures Scores(dyn, env, acts, s, d, m, gamma, seed, n)[k]
         == Accumulate(TrialScores(dyn, env, acts, k, s, d, m, gamma, seed, Count(m)), m)
  {
    if k < n - 1 {
      ScoreOfAction(dyn, env, acts, s, d, m, gamma, seed, k, n - 1);
    }
  }

  /** Entry i of the trial scores is the score of trial i, whose draws are named by `seed + [ai, i]`: its
      rollout has depth `d - 1`, the caller's `gamma` and resource probability 0.5, whatever `pp` the
      rollout could take. */
  lemma {:induction false} TrialScoreIs<S>(dyn: Dynamics<S, Actions.Action>, env: Env<S>, acts: seq<Actions.Action>,
                                          ai: nat, s: S, d: int, m: int, gamma: real, seed: Seed, i: nat, t: nat)
    requires ai < |acts| && i < t
    ensures TrialScores(dyn, env, acts, ai, s, d, m, gamma, seed, t)[i] == TrialScore(dyn, env, acts[ai], s, d, gamma, 0.5, seed + [ai, i])
  {
    if i < t - 1 {
      TrialScoreIs(dyn, env, acts, ai, s, d, m, gamma, seed, i, t - 1);
    } else {
      TrialScoresSnoc(dyn, env, acts, ai, s, d, m, gamma, seed, i);
    }
  }

  /** With `m > 0` trials, action k's score is the mean of its trial scores. */
  lemma ScoreIsMean<S>(dyn: Dynamics<S, Actions.Action>, env: Env<S>, acts: seq<Actions.Action>, s: S, d: int, m: int,
                       gamma: real, seed: Seed, k: nat)
    requires m > 0 && k < |acts|
    ensures Scores(dyn, env, acts, s, d, m, gamma, seed, |acts|)[k]
         == Sum(TrialScores(dyn, env, acts, k, s, d, m, gamma, seed, m)) / (m as real)
  {
    ScoreOfAction(dyn, env, acts, s, d, m, gamma, seed, k, |acts|);
    AccumulateIsMean(TrialScores(dyn, env, acts, k, s, d, m, gamma, seed, m), m);
  }

  /** For d > 0 and some actions, `lookahead` returns just the first action whose averaged score is the
      largest; ties go to the earlier action. */
  lemma LookaheadPicksFirstBest<S>(dyn: Dynamics<S, Actions.Action>, env: Env<S>, acts: seq<Actions.Action>, s: S,
                                   d: int, m: int, gamma: real, seed: Seed)
    requires d > 0 && |acts| > 0
    ensures var vals := Scores(dyn, env, acts, s, d, m, gamma, seed, |acts|);
      exists k :: IsFirstMax(vals, k) && LookaheadOf(dyn, env, acts, s, d, m, gamma, seed) == Bare(Some(acts[k]))
  {
    ArgMaxIsFirstMax(acts, Scores(dyn, env, acts, s, d, m, gamma, seed, |acts|));
  }
}
