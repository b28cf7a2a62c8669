/** Pieces shared by the three planners (src/sparse_sample.py, src/lookahead_rollouts.py,
    src/discretized_linear.py): the value they compare, the pair they return, the strict-`>`
    running maximum over the action list and the `u += (r + gamma * u') / m` accumulation. */
module Search {

  datatype Option<T> = None | Some(value: T)

  /** A float as the planners use it: `float('-inf')` or a finite number. */
  datatype Value = NegInf | Finite(r: real)

  /** `u > v` for a finite `u`: everything finite is above `-inf`. */
  predicate Greater(u: real, v: Value) {
    v.NegInf? || u > v.r
  }

  /** The `(action, value)` pair a planner returns; `action` is `None` for Python's `None`. */
  datatype Choice<A> = Choice(action: Option<A>, value: Value)

  /** What one `set_resources(a)` followed by `transition()` yields: the new state and the step reward. */
  datatype StepResult<S> = StepResult(next: S, reward: real)

  /** Identifies one call site in a search tree; the random draws a step consumes are a function of it. */
  type Seed = seq<nat>

  /** The two grid operations the planners call, kept abstract: `place(s, a)` is the state after
      `set_resources(a)`, and `advance(s, seed)` is what `transition()` leaves and returns when it
      consumes the draws named by `seed`. */
  datatype Dynamics<!S, !A> = Dynamics(place: (S, A) -> S, advance: (S, Seed) -> StepResult<S>)

  /** `set_resources(a)` followed by `r = transition()`. */
  function Step<S, A>(dyn: Dynamics<S, A>, s: S, a: A, seed: Seed): StepResult<S> {
    dyn.advance(dyn.place(s, a), seed)
  }

  /** The grid object the planners hold a reference to: its state changes in place under
      `set_resources` and `transition`, and `Copy` is `copy.deepcopy`. */
  class Simulator<S, A> {
    const dyn: Dynamics<S, A>
    var state: S

    constructor (dyn: Dynamics<S, A>, state: S)
      ensures this.dyn == dyn && this.state == state
    {
      this.dyn := dyn;
      this.state := state;
    }

    /** `copy.deepcopy(grid)`: a new object with the same state. */
    method Copy() returns (c: Simulator<S, A>)
      ensures fresh(c) && c.dyn == dyn && c.state == state
    {
      c := new Simulator(dyn, state);
    }

    /** `grid.set_resources(a)`. */
    method SetResources(a: A)
      modifies this
      ensures state == dyn.place(old(state), a)
    {
      state := dyn.place(state, a);
    }

    /** `r = grid.transition()`, consuming the draws named by `seed`. */
    method Transition(seed: Seed) returns (r: real)
      modifies this
      ensures state == dyn.advance(old(state), seed).next && r == dyn.advance(old(state), seed).reward
    {
      var result := dyn.advance(state, seed);
      state := result.next;
      r := result.reward;
    }
  }

  /** The state after the steps `steps` in order, each a `set_resources(a)` and a `transition()`
      consuming the draws named by its seed. */
  function Replay<S, A>(dyn: Dynamics<S, A>, s: S, steps: seq<(A, Seed)>): S {
    if steps == [] then s
    else
      var (a, here) := steps[|steps| - 1];
      Step(dyn, Replay(dyn, s, steps[..|steps| - 1]), a, here).next
  }

  /** Replaying two runs of steps one after the other. */
  lemma {:induction false} ReplayAppend<S, A>(dyn: Dynamics<S, A>, s: S, xs: seq<(A, Seed)>, ys: seq<(A, Seed)>)
    ensures Replay(dyn, s, xs + ys) == Replay(dyn, Replay(dyn, s, xs), ys)
    decreases |ys|
  {
    if ys == [] {
      assert xs + ys == xs;
    } else {
      var init := ys[..|ys| - 1];
      ReplayAppend(dyn, s, xs, init);
      assert (xs + ys)[..|xs + ys| - 1] == xs + init;
    }
  }

  /** `max(x, 0)`: the number of iterations of `range(x)`, and the recursion measure of a depth that may
      be zero or negative. */
  function Count(x: int): nat {
    if x < 0 then 0 else x
  }

  /** `best` after the loop over `acts[..|vals|]`: starting from `(None, -inf)`, action k replaces the
      pair when its value `vals[k]` is strictly greater than the value held. */
  function ArgMax<A>(acts: seq<A>, vals: seq<real>): (c: Choice<A>)
    requires |vals| <= |acts|
    ensures |vals| == 0 <==> c.action.None?
    ensures c.action.None? <==> c.value.NegInf?
  {
    if |vals| == 0 then Choice(None, NegInf)
    else
      var k := |vals| - 1;
      var best := ArgMax(acts, vals[..k]);
      if Greater(vals[k], best.value) then Choice(Some(acts[k]), Finite(vals[k])) else best
  }

  /** `k` is the first index at which `vals` reaches its maximum. */
  predicate IsFirstMax(vals: seq<real>, k: int) {
    0 <= k < |vals| &&
    (forall j :: 0 <= j < |vals| ==> vals[j] <= vals[k]) &&
    (forall j :: 0 <= j < k ==> vals[j] < vals[k])
  }

  /** The running maximum keeps the first action whose value is maximal, and its value. */
  lemma {:induction false} ArgMaxIsFirstMax<A>(acts: seq<A>, vals: seq<real>)
    requires 0 < |vals| <= |acts|
    ensures exists k :: IsFirstMax(vals, k) && ArgMax(acts, vals) == Choice(Some(acts[k]), Finite(vals[k]))
  {
    var n := |vals| - 1;
    if n == 0 {
      assert IsFirstMax(vals, 0);
    } else {
      var prefix := vals[..n];
      ArgMaxIsFirstMax(acts, prefix);
      var k :| IsFirstMax(prefix, k) && ArgMax(acts, prefix) == Choice(Some(acts[k]), Finite(prefix[k]));
      if vals[n] > vals[k] {
        assert IsFirstMax(vals, n);
      } else {
        assert IsFirstMax(vals, k);
      }
    }
  }

  /** Two indices that are both the first maximum are equal, so the lemma above pins the choice down. */
  lemma FirstMaxUnique(vals: seq<real>, k1: int, k2: int)
    requires IsFirstMax(vals, k1) && IsFirstMax(vals, k2)
    ensures k1 == k2
  {
    assert vals[k1] <= vals[k2] && vals[k2] <= vals[k1];
  }

  /** `u` after the trials whose terms are `terms`, each adding `term / m` to a `u` that starts at `0.0`;
      there are never more trials than `range(m)` has iterations. */
  function Accumulate(terms: seq<real>, m: int): real
    requires |terms| <= Count(m)
  {
    if terms == [] then 0.0 else Accumulate(terms[..|terms| - 1], m) + terms[|terms| - 1] / (m as real)
  }

  /** Plain sum of a list of reals, front to back. */
  function Sum(xs: seq<real>): real {
    if xs == [] then 0.0 else xs[0] + Sum(xs[1..])
  }

  lemma {:induction false} SumSnoc(xs: seq<real>, x: real)
    ensures Sum(xs + [x]) == Sum(xs) + x
  {
    if xs == [] {
      assert xs + [x] == [x];
    } else {
      assert (xs + [x])[1..] == xs[1..] + [x];
      SumSnoc(xs[1..], x);
    }
  }

  /** The accumulated `u` is the sum of the trial terms divided by `m`: after all `m` trials, their mean. */
  lemma {:induction false} AccumulateIsMean(terms: seq<real>, m: int)
    requires m > 0 && |terms| <= m
    ensures Accumulate(terms, m) == Sum(terms) / (m as real)
  {
    if terms != [] {
      var init, last := terms[..|terms| - 1], terms[|terms| - 1];
      AccumulateIsMean(init, m);
      assert terms == init + [last];
      SumSnoc(init, last);
      var mr := m as real;
      assert Sum(init) / mr + last / mr == (Sum(init) + last) / mr;
    }
  }
}
