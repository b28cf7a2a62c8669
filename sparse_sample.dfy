/** Model of `sparse_sampling` (src/sparse_sample.py:21-35): a depth-limited expected-value search.
    Each action is tried `m` times on a deep copy of the grid, each trial scores
    `r + gamma * u'` with `u'` the value of a recursive search one level down, the trial scores are
    averaged, and the first action with the strictly largest average is returned with it. The leaf
    `approximate_utility` reads `observation()`, which src/wildfire.py does not define, and is kept
    abstract as `utility`. */
module SparseSample {
  import opened Search

  /** The defaults of `m` and `gamma`, which every recursive call falls back to. */
  const DefaultM: int := 5
  const DefaultGamma: real := 0.95

  /** The pair `sparse_sampling(A, grid, d, m, gamma)` returns for a grid in state `s`; `seed` names
      the call's place in the search tree, and the trial `i` of action `acts[k]` below it uses
      `seed + [k, i]`. */
  function Plan<S, A>(dyn: Dynamics<S, A>, utility: S -> real, acts: seq<A>, s: S, d: int, m: int, gamma: real,
                      seed: Seed): (c: Choice<A>)
    ensures d <= 0 ==> c == Choice(None, Finite(utility(s)))
    ensures c.value.NegInf? <==> d > 0 && |acts| == 0
    ensures c.action.None? <==> d <= 0 || |acts| == 0
    decreases Count(d), 3
  {
    if d <= 0 then Choice(None, Finite(utility(s)))
    else ArgMax(acts, Values(dyn, utility, acts, s, d, m, gamma, seed, |acts|))
  }

  /** The averaged `u` of each of the actions `acts[..k]`. */
  function Values<S, A>(dyn: Dynamics<S, A>, utility: S -> real, acts: seq<A>, s: S, d: int, m: int, gamma: real,
                        seed: Seed, k: nat): (vs: seq<real>)
    requires d > 0 && k <= |acts|
    ensures |vs| == k
    decreases Count(d), 2, k
  {
    if k == 0 then []
    else
      var terms := Terms(dyn, utility, acts, k - 1, s, d, m, gamma, seed, Count(m));
      Values(dyn, utility, acts, s, d, m, gamma, seed, k - 1) + [Accumulate(terms, m)]
  }

  /** The scores `r + gamma * u'` of the first `t` trials of action `acts[ai]`, each on its own copy of
      the grid; the search below runs with the default `m` and `gamma`, not the caller's. */
  function Terms<S, A>(dyn: Dynamics<S, A>, utility: S -> real, acts: seq<A>, ai: nat, s: S, d: int, m: int,
                       gamma: real, seed: Seed, t: nat): (ts: seq<real>)
    requires d > 0 && ai < |acts|
    ensures |ts| == t
    decreases Count(d), 1, t
  {
    if t == 0 then []
    else Terms(dyn, utility, acts, ai, s, d, m, gamma, seed, t - 1) + [Score(dyn, utility, acts, ai, s, d, gamma, seed + [ai, t - 1])]
  }

  /** The score `r + gamma * u'` of the trial named `here` that places `acts[ai]` on a copy of a grid in
      state `s`. */
  function Score<S, A>(dyn: Dynamics<S, A>, utility: S -> real, acts: seq<A>, ai: nat, s: S, d: int, gamma: real,
                       here: Seed): real
    requires d > 0 && ai < |acts|
    decreases Count(d), 0
  {
    var step := Step(dyn, s, acts[ai], here);
    step.reward + gamma * Plan(dyn, utility, acts, step.next, d - 1, DefaultM, DefaultGamma, here).value.r
  }

  /** `sparse_sampling(A, grid, d, m, gamma)`. The grid is only read: every trial works on a copy. */
  method SparseSampling<S, A>(utility: S -> real, acts: seq<A>, grid: Simulator<S, A>, d: int, seed: Seed,
                              m: int := DefaultM, gamma: real := DefaultGamma) returns (best: Choice<A>)
    ensures best == Plan(grid.dyn, utility, acts, grid.state, d, m, gamma, seed)
    decreases Count(d), 1
  {
    if d <= 0 {
      return Choice(None, Finite(utility(grid.state)));
    }
    best := Choice(None, NegInf);
    ghost var vals: seq<real> := [];
    var ai: nat := 0;
    while ai < |acts|
      invariant ai <= |acts|
      invariant vals == Values(grid.dyn, utility, acts, grid.state, d, m, gamma, seed, ai)
      invariant best == ArgMax(acts, vals)
    {
      var a := acts[ai];
      var u := Trials(utility, acts, ai, grid, d, seed, m, gamma);
      if Greater(u, best.value) {
        best := Choice(Some(a), Finite(u));
      }
      vals := vals + [u];
      ai := ai + 1;
    }
  }

  /** The body of the loop over actions in `sparse_sampling`: the `m` trials of `acts[ai]`, each on a
      fresh deep copy of the grid, accumulating `u += (r + gamma * u') / m`. */
  method Trials<S, A>(utility: S -> real, acts: seq<A>, ai: nat, grid: Simulator<S, A>, d: int, seed: Seed,
                      m: int, gamma: real) returns (u: real)
    requires d > 0 && ai < |acts|
    ensures u == Accumulate(Terms(grid.dyn, utility, acts, ai, grid.state, d, m, gamma, seed, Count(m)), m)
    decreases Count(d), 0, 1
  {
    u := 0.0;
    ghost var terms: seq<real> := [];
    var i: nat := 0;
    while i < m
      invariant i <= Count(m)
      invariant terms == Terms(grid.dyn, utility, acts, ai, grid.state, d, m, gamma, seed, i)
      invariant u == Accumulate(terms, m)
    {
      var score := Trial(utility, acts, ai, grid, d, seed, i, gamma);
      TermsSnoc(grid.dyn, utility, acts, ai, grid.state, d, m, gamma, seed, i);
      ghost var next := terms + [score];
      assert next[..|next| - 1] == terms;
      assert Accumulate(next, m) == u + score / (m as real);
      u := u + score / (m as real);
      terms := next;
      i := i + 1;
    }
  }

  /** Trial `i` of `acts[ai]`: `grid_cp = deepcopy(grid)`, place the resources, advance it, and score
      the reward plus `gamma` times the value of the search one level down from the copy. */
  method Trial<S, A>(utility: S -> real, acts: seq<A>, ai: nat, grid: Simulator<S, A>, d: int, seed: Seed, i: nat,
                     gamma: real) returns (score: real)
    requires d > 0 && ai < |acts|
    ensures score == Score(grid.dyn, utility, acts, ai, grid.state, d, gamma, seed + [ai, i])
    decreases Count(d), 0, 0
  {
    var gridCp := grid.Copy();
    gridCp.SetResources(acts[ai]);
    var r := gridCp.Transition(seed + [ai, i]);
    var below := SparseSampling(utility, acts, gridCp, d - 1, seed + [ai, i]);
    score := r + gamma * below.value.r;
  }

  /** One more trial appends its score to the list. */
  lemma TermsSnoc<S, A>(dyn: Dynamics<S, A>, utility: S -> real, acts: seq<A>, ai: nat, s: S, d: int, m: int,
                        gamma: real, seed: Seed, i: nat)
    requires d > 0 && ai < |acts|
    ensures Terms(dyn, utility, acts, ai, s, d, m, gamma, seed, i + 1)
         == Terms(dyn, utility, acts, ai, s, d, m, gamma, seed, i) + [Score(dyn, utility, acts, ai, s, d, gamma, seed + [ai, i])]
  {
    assert seed + [ai, (i + 1) - 1] == seed + [ai, i];
  }

  /* ---- Properties of the search ---- */

  /** Action k's value is its `u` after all trials. */
  lemma {:induction false} ValueOfAction<S, A>(dyn: Dynamics<S, A>, utility: S -> real, acts: seq<A>, s: S, d: int,
                                             m: int, gamma: real, seed: Seed, k: nat, n: nat)
    requires d > 0 && k < n <= |acts|
    ensures Values(dyn, utility, acts, s, d, m, gamma, seed, n)[k]
         == Accumulate(Terms(dyn, utility, acts, k, s, d, m, gamma, seed, Count(m)), m)
  {
    if k < n - 1 {
      ValueOfAction(dyn, utility, acts, s, d, m, gamma, seed, k, n - 1);
    }
  }

  /** Trial i of action k scores the step's reward plus `gamma` times the value of a search one level
      down from the state that step reached, run with `m = 5` and `gamma = .95` whatever the caller
      passed. */
  lemma {:induction false} TrialScore<S, A>(dyn: Dynamics<S, A>, utility: S -> real, acts: seq<A>, ai: nat, s: S,
                                          d: int, m: int, gamma: real, seed: Seed, i: nat, t: nat)
    requires d > 0 && ai < |acts| && i < t
    ensures var step := Step(dyn, s, acts[ai], seed + [ai, i]);
      var below := Plan(dyn, utility, acts, step.next, d - 1, 5, 0.95, seed + [ai, i]);
      below.value.Finite? &&
      Terms(dyn, utility, acts, ai, s, d, m, gamma, seed, t)[i] == step.reward + gamma * below.value.r
  {
    if i < t - 1 {
      TrialScore(dyn, utility, acts, ai, s, d, m, gamma, seed, i, t - 1);
    }
  }

  /** With `m > 0` trials, action k's value is the mean of its trial scores. */
  lemma ValueIsMean<S, A>(dyn: Dynamics<S, A>, utility: S -> real, acts: seq<A>, s: S, d: int, m: int, gamma: real,
                          seed: Seed, k: nat)
    requires d > 0 && m > 0 && k < |acts|
    ensures Values(dyn, utility, acts, s, d, m, gamma, seed, |acts|)[k]
         == Sum(Terms(dyn, utility, acts, k, s, d, m, gamma, seed, m)) / (m as real)
  {
    ValueOfAction(dyn, utility, acts, s, d, m, gamma, seed, k, |acts|);
    AccumulateIsMean(Terms(dyn, utility, acts, k, s, d, m, gamma, seed, m), m);
  }

  /** With no trials (`m <= 0`) every action is worth `0.0`, so the first action wins. */
  lemma NoTrialsPicksFirst<S, A>(dyn: Dynamics<S, A>, utility: S -> real, acts: seq<A>, s: S, d: int, m: int,
                                 gamma: real, seed: Seed)
    requires d > 0 && m <= 0 && |acts| > 0
    ensures Plan(dyn, utility, acts, s, d, m, gamma, seed) == Choice(Some(acts[0]), Finite(0.0))
  {
    var vals := Values(dyn, utility, acts, s, d, m, gamma, seed, |acts|);
    forall k | 0 <= k < |acts|
      ensures vals[k] == 0.0
    {
      ValueOfAction(dyn, utility, acts, s, d, m, gamma, seed, k, |acts|);
    }
    ArgMaxIsFirstMax(acts, vals);
    var k :| IsFirstMax(vals, k) && ArgMax(acts, vals) == Choice(Some(acts[k]), Finite(vals[k]));
    assert IsFirstMax(vals, 0);
    FirstMaxUnique(vals, k, 0);
  }

  /** For d > 0 and some actions, the search returns the first action whose averaged value is the
      largest, together with that value; ties go to the earlier action. */
  lemma PlanPicksFirstBest<S, A>(dyn: Dynamics<S, A>, utility: S -> real, acts: seq<A>, s: S, d: int, m: int,
                                 gamma: real, seed: Seed)
    requires d > 0 && |acts| > 0
    ensures var vals := Values(dyn, utility, acts, s, d, m, gamma, seed, |acts|);
      exists k :: IsFirstMax(vals, k) &&
        Plan(dyn, utility, acts, s, d, m, gamma, seed) == Choice(Some(acts[k]), Finite(vals[k]))
  {
    ArgMaxIsFirstMax(acts, Values(dyn, utility, acts, s, d, m, gamma, seed, |acts|));
  }
}
