# Wildfire grid and online planners, in Dafny

This project models the core of a small wildfire-management simulator and proves properties of that model.
The simulator has two halves.

- **The grid** (`src/wildfire.py`). An n×n grid of regions. Each region has a fire flag, dryness, fuel,
  property value and a resources flag. The grid keeps a running `reward`.
  - `FireGrid.__init__` draws every region at random.
  - `neighbors_on_fire` counts the burning up, down, left and right neighbours that lie inside the grid.
  - `transition` sweeps the cells in row-major order and updates them in place. A burning cell burns a
    random fraction `b = .2 * draw` of its fuel and loses the same fraction of its property. That loss
    comes off `reward`. Any other cell catches fire when its draw falls below
    `neighbours / 4 * dryness * fuel`.
  - Because the sweep writes into the grid it reads (`S_prime = self.S`), a cell sees the new fire flags
    of the cells visited before it.
- **The planners** choose where to place resources.
  - `all_possible_actions(n)` lists every n×n boolean matrix, in `itertools.product` order.
  - `sparse_sampling` (`src/sparse_sample.py`) is a depth-limited expected-value search. It tries each
    action `m` times on a deep copy of the grid. It scores each trial as `r + gamma * u'` and averages the
    scores. It keeps the first action whose average is strictly the largest.
  - `lookahead` (`src/lookahead_rollouts.py`) is the same search, except that below the top level it
    follows a random placement (`random_rollout`).
  - The `sparse_sampling` of `src/discretized_linear.py` does not copy the grid. Every trial of every
    action, and every search below them, changes the caller's one grid, one after the other.

Modules:

- `Wildfire` (`wildfire.dfy`) models the regions, the grid and the sweep.
  - `FireGrid` is a class over an `array2<Cell>`.
  - Its `Transition` method is verified against a function on values, `Sweep`.
  - `Sweep` visits the cells one by one in row-major order. Each visit counts neighbours in the grid as the
    earlier visits left it.
- `WildfireProperties` (`wildfire_properties.dfy`) proves what `Sweep` does to each cell and to `reward`.
- `Actions` (`actions.dfy`) models the action list.
- `Search` (`search.dfy`) holds the parts all the planners share:
  - `Replay`, the state reached by a list of placements and transitions applied in order;
  - the strict-`>` arg-max;
  - the `u += (r + gamma * u') / m` accumulation;
  - a `Simulator` class standing for the grid object the planners hold.
- `SparseSample`, `LookaheadRollouts` and `DiscretizedLinear` model the three planners. Each planner is a
  recursive method with loops, proved equal to a specification function. Its properties are proved as
  lemmas about that function. The loop over one action's trials is its own method (`Trials`). Where the
  body of one trial calls a rollout or changes the shared grid, that body is a method too (`Trial`,
  `TrialOnGrid`).

The random numbers are inputs.

- `transition` consumes `draws[i][j]` when it visits cell (i, j).
  - For a burning cell this is the burn-fraction sample.
  - For any other cell it is the ignition sample.
- `__init__` consumes four samples per region, in the order the code takes them.
- Inside the planners, the draws a step consumes are named by a `Seed`: its position in the search tree.

The planners call grid operations that `src/wildfire.py` does not define:

- `set_resources`;
- a `transition` that returns the step reward;
- `observation`;
- `grid.property`, `grid.fire`, `grid.A`.

These are parameters of the model:

- `Dynamics.place` is `set_resources`.
- `Dynamics.advance` is that `transition`.
- `observe`, `utility` and `Env.cells` stand for what the planners read.

## Notes on the code

The model follows the code as written in each of these points.

- **Ignition threshold.** A cell that is not burning ignites when its draw falls below
  `neighbours / 4 * dryness * fuel` (`src/wildfire.py:82`). There is no wind term and no resource term,
  so placing resources does not change this rule, and a cell with no burning neighbour never ignites.
- **Reward.** `transition` returns nothing (`src/wildfire.py:67-84`). `reward` falls only by the property
  lost (`src/wildfire.py:78-79`); there is no per-resource cost.
- **Going out.** A burning cell goes out only when its fuel is strictly below `b`
  (`src/wildfire.py:73-77`). When the fuel equals `b`, the cell ends with fuel 0 and still burning
  (`WildfireProperties.TransitionBurnsCell`).
- **Rollout leaf.** `random_rollout` returns `0.0` at depth 0 (`src/lookahead_rollouts.py:10-11`). The
  leaf is not a utility estimate.
- **Fuel range.** The comment at `src/wildfire.py:7` gives fuel as 0 to 100, but `__init__` samples it
  in [0, 1) (`src/wildfire.py:34`).

## Model

| member | source | states |
|---|---|---|
| Wildfire.NeighboursCountSet | src/wildfire.py:55-65 | the four-term count of burning in-grid neighbours equals the number of burning grid cells at Manhattan distance 1, so it is at most 4 |
| Wildfire.FireGrid.NeighborsOnFire | src/wildfire.py:55-65 | returns the number of burning cells among the in-grid up, down, left and right neighbours in the array as it stands; off-grid positions add 0; the result is in 0..4 |
| Wildfire.FireGrid.constructor | src/wildfire.py:24-39 | `reward` is 0; region (i, j) is built from its own four samples, row by row: on fire iff its fire sample is below `fire_prob`, property 100 times its sample, no resources |
| Wildfire.FireGrid.Burn | src/wildfire.py:71-80 | a burning cell loses `b = .2 * draw` of its fuel, or all of it and its fire when it had less than `b`; it loses `property * b`, and the same amount comes off `reward`; no other cell changes |
| Wildfire.FireGrid.Ignite | src/wildfire.py:81-83 | a cell that is not burning is set on fire iff its draw is below `neighbours / 4 * dryness * fuel`, the neighbours counted in the array as it stands; `reward` is unchanged |
| Wildfire.FireGrid.VisitCell | src/wildfire.py:70-83 | one cell of the sweep: the array goes from `g` to `Visit(g, ...)` and `reward` drops by the property lost |
| Wildfire.FireGrid.Transition | src/wildfire.py:67-84 | the array afterwards is `Sweep` of the old cells: every cell visited once, row-major, in place; `reward` drops by the property lost over the sweep |
| WildfireProperties.VisitFrame | src/wildfire.py:71-83 | a visit writes only the visited cell |
| WildfireProperties.SweepUnvisited | src/wildfire.py:68-84 | a cell the sweep has not reached still holds its value from before the transition |
| WildfireProperties.SweepSettled | src/wildfire.py:68-84 | a cell the sweep has passed is not written again |
| WildfireProperties.SweepCell | src/wildfire.py:68-83 | cell (i, j) afterwards is the one-cell rule applied to its old value and its own draw; the neighbours it counts are the new flags above and to the left and the old flags below and to the right |
| WildfireProperties.UpdateKeeps | src/wildfire.py:71-83 | one visit never writes dryness or resources; a cell that is not burning keeps its fuel and property |
| WildfireProperties.UpdateLoss | src/wildfire.py:78-80 | the amount a visit takes off `reward` is exactly the drop in that cell's property |
| WildfireProperties.TransitionKeepsDrynessAndResources | src/wildfire.py:67-84 | `transition` leaves every cell's dryness and resources unchanged |
| WildfireProperties.TransitionBurnsCell | src/wildfire.py:72-77 | a burning cell goes out iff its fuel was below `b`; its fuel becomes 0 in that case and `fuel - b` otherwise; fuel that was 0 or more stays 0 or more; with fuel exactly `b` it ends with fuel 0 and still burning |
| WildfireProperties.TransitionDamagesProperty | src/wildfire.py:72-80 | for a sample draw, `b` is in [0, .2) and a burning cell's property becomes `property * (1 - b)`; property that was 0 or more stays between 0 and its old value |
| WildfireProperties.TransitionIgnitesCell | src/wildfire.py:81-83 | a cell that is not burning changes only its fire flag, which is set iff its draw is below the threshold; with no burning neighbour when it is visited, or no fuel, or no dryness, a non-negative draw leaves it unlit |
| WildfireProperties.TransitionKeepsFuelNonNegative | src/wildfire.py:72-77 | if every fuel is 0 or more before `transition`, it is 0 or more after |
| WildfireProperties.TransitionPropertyNonIncreasing | src/wildfire.py:78-80 | with sample draws and property 0 or more everywhere, no property grows and none becomes negative |
| WildfireProperties.VisitLostIsPropertyDrop | src/wildfire.py:78-80 | what one visit takes off `reward` is exactly the drop in the grid's total property |
| WildfireProperties.SweepToLostIsPropertyDrop | src/wildfire.py:78-80 | at every point of the sweep, the property taken off `reward` so far equals the drop in total property |
| WildfireProperties.TransitionLostIsPropertyDrop | src/wildfire.py:78-79 | `transition` lowers `reward` by exactly the total property the regions lost |
| WildfireProperties.TransitionRewardNonIncreasing | src/wildfire.py:78-79 | with sample draws and property 0 or more everywhere, `transition` never raises `reward` |
| WildfireProperties.InitialGridRanges | src/wildfire.py:27-36 | with sample draws, every new region has fuel and dryness in [0, 1), property in [0, 100) and no resources, and is on fire iff its fire sample is below `fire_prob` |
| WildfireProperties.ExposureBounds | src/lookahead_rollouts.py:21-22 | with no negative property, the sum of property times fire is at least 0 and at most the total property |
| WildfireProperties.ExposureNoFire | src/lookahead_rollouts.py:21-22 | with no region on fire, the sum of property times fire is 0 |
| Actions.AllPossibleActions | src/sparse_sample.py:15-19 | the list has exactly 2^(n²) actions |
| Actions.ProductCounts | src/sparse_sample.py:16-17 | tuple i of `itertools.product([False, True], repeat=k)` is i written in binary, first position most significant |
| Actions.ProductHasEvery | src/sparse_sample.py:16-17 | every boolean tuple of length k appears in the product, at the position its binary value names |
| Actions.FlattenReshape | src/sparse_sample.py:18 | reading a reshaped tuple back row by row gives the tuple |
| Actions.ReshapeFlatten | src/sparse_sample.py:18 | reshaping a matrix read row by row gives the matrix |
| Actions.ActionsCount | src/sparse_sample.py:15-19 | every action is n×n, and action i read row by row is i in binary: the list counts up from all-False |
| Actions.ActionsDistinct | src/sparse_sample.py:15-19 | no two positions of the list hold the same matrix |
| Actions.ActionsComplete | src/sparse_sample.py:15-19 | every n×n boolean matrix is in the list |
| Actions.ActionsEnds | src/sparse_sample.py:15-19 | the first action is all-False and the last is all-True |
| Search.ArgMax | src/sparse_sample.py:24-35 | the running best is `(None, -inf)` iff no action was compared, and then only |
| Search.ArgMaxIsFirstMax | src/sparse_sample.py:24-35 | the strict-`>` scan keeps the first action whose value is maximal, together with that value |
| Search.FirstMaxUnique | src/sparse_sample.py:33-35 | the first maximal position is unique, so the chosen action is determined |
| Search.AccumulateIsMean | src/sparse_sample.py:26-32 | `u` after the trials is the sum of their terms divided by `m`; after all `m` trials it is their mean |
| Search.Simulator.Copy | src/sparse_sample.py:28 | `deepcopy` gives a new grid object with the same state |
| Search.Simulator.SetResources | src/sparse_sample.py:29 | the grid's state becomes the placed state; nothing else changes |
| Search.Simulator.Transition | src/sparse_sample.py:30 | the grid's state advances one step and the step's reward is returned |
| SparseSample.Plan | src/sparse_sample.py:21-35 | at d ≤ 0 the result is `(None, approximate_utility(grid))`; the value is `-inf` iff d > 0 and A is empty; the action is `None` iff d ≤ 0 or A is empty |
| SparseSample.SparseSampling | src/sparse_sample.py:21-35 | returns the search result for the caller's grid state; it may modify no existing object, so the caller's grid is unchanged |
| SparseSample.Trials | src/sparse_sample.py:26-32 | the inner loop leaves `u` equal to the accumulated scores of the action's `m` trials, each on a fresh copy |
| SparseSample.Trial | src/sparse_sample.py:28-32 | one trial on a fresh copy scores the step's reward plus `gamma` times the value of the search one level down from the state that step reached, run with `m = 5` and `gamma = .95` |
| SparseSample.ValueOfAction | src/sparse_sample.py:25-32 | the value compared for action k is that action's `u` after all its trials |
| SparseSample.TrialScore | src/sparse_sample.py:31-32 | trial i scores the step's reward plus `gamma` times the value of a search one level down, and that search uses `m = 5` and `gamma = .95` whatever the caller passed |
| SparseSample.ValueIsMean | src/sparse_sample.py:26-32 | with m > 0, each action's value is the mean of its m trial scores |
| SparseSample.NoTrialsPicksFirst | src/sparse_sample.py:24-35 | with m ≤ 0 every action is worth 0.0, so the first action is returned with 0.0 |
| SparseSample.PlanPicksFirstBest | src/sparse_sample.py:24-35 | for d > 0 and some actions, the result is the first action with the largest averaged value, paired with that value |
| LookaheadRollouts.RandomFlip | src/lookahead_rollouts.py:13 | an n×n placement with resources at (i, j) iff the uniform draw there is below `pp` |
| LookaheadRollouts.Rewards | src/lookahead_rollouts.py:12-16 | a rollout of depth d takes exactly max(d, 0) steps |
| LookaheadRollouts.RandomRollout | src/lookahead_rollouts.py:9-16 | returns the rollout's value, and leaves the grid it was given in the state the rollout's steps reach |
| LookaheadRollouts.RolloutIsDiscountedSum | src/lookahead_rollouts.py:9-16 | the value is `r_0 + gamma r_1 + ... + gamma^(d-1) r_(d-1)` over exactly max(d, 0) steps; at depth ≤ 0 it is `0.0`, with no utility at the leaf, and the state is untouched |
| LookaheadRollouts.RolloutReplays | src/lookahead_rollouts.py:9-16 | a rollout of depth d leaves the grid in the state reached by exactly max(d, 0) random placements and transitions, applied in order to the state it was given |
| LookaheadRollouts.ApproximateUtility | src/lookahead_rollouts.py:21-22 | the leaf utility, the property on fire summed over the regions, lies between 0 and the total property when no property is negative, and is 0 when no region burns |
| LookaheadRollouts.LookaheadOf | src/lookahead_rollouts.py:29-43 | the tuple `(None, utility)` iff d ≤ 0, with utility `approximate_utility`; otherwise a bare action, which is `None` iff A is empty |
| LookaheadRollouts.Lookahead | src/lookahead_rollouts.py:29-43 | returns the lookahead result for the caller's grid state; it may modify no existing object, so the caller's grid is unchanged |
| LookaheadRollouts.Trials | src/lookahead_rollouts.py:34-40 | the inner loop leaves `u` equal to the accumulated scores of the action's `m` trials |
| LookaheadRollouts.Trial | src/lookahead_rollouts.py:36-40 | one trial on a fresh copy scores the step's reward plus `gamma` times a rollout from the state that step reached, run with resource probability 0.5 |
| LookaheadRollouts.ScoreOfAction | src/lookahead_rollouts.py:33-42 | the value compared for action k is that action's `u` after all its trials |
| LookaheadRollouts.TrialScoreIs | src/lookahead_rollouts.py:36-40 | entry i of an action's trial scores is the score of trial i, whose rollout has depth d - 1, the caller's `gamma` and resource probability 0.5, since `lookahead` never passes `pp` |
| LookaheadRollouts.ScoreIsMean | src/lookahead_rollouts.py:34-40 | with m > 0, each action's score is the mean of its m trial scores |
| LookaheadRollouts.LookaheadPicksFirstBest | src/lookahead_rollouts.py:32-43 | for d > 0 and some actions, the result is the bare first action with the largest averaged score |
| DiscretizedLinear.ApproximateUtility | src/discretized_linear.py:5-10 | the loop ends with minus the sum of fire times property over all regions, which is at most 0 when no property is negative |
| DiscretizedLinear.Plan | src/discretized_linear.py:12-26 | at d ≤ 0 the result is `(None, approximate_utility(grid))` and the grid is unchanged; the value is `-inf` iff d > 0 and `grid.A` is empty; the action is `None` iff d ≤ 0 or `grid.A` is empty |
| DiscretizedLinear.SparseSampling | src/discretized_linear.py:12-26 | returns the search result, and leaves the caller's grid in the state the search's steps reach |
| DiscretizedLinear.Trials | src/discretized_linear.py:17-23 | the inner loop accumulates the action's `m` trial scores, each trial starting where the previous one left the shared grid |
| DiscretizedLinear.TrialOnGrid | src/discretized_linear.py:19-23 | with `grid_cp = grid`, a trial's placement, transition and search below all change the caller's grid |
| DiscretizedLinear.ValueOfAction | src/discretized_linear.py:17-23 | action k's value is its `u` over trials that start from the state the earlier actions left |
| DiscretizedLinear.TrialScore | src/discretized_linear.py:19-23 | trial i runs on the state trial i - 1 left; its search one level down uses `m = 10` and `gamma = .95` whatever the caller passed |
| DiscretizedLinear.ValueIsMean | src/discretized_linear.py:17-23 | with m > 0, each action's value is the mean of its m trial scores |
| DiscretizedLinear.PlanPicksFirstBest | src/discretized_linear.py:15-26 | for d > 0 and some actions, the result is the first action with the largest averaged value, paired with that value |
| DiscretizedLinear.DepthOneSharesGrid | src/discretized_linear.py:19-22 | a depth-1 search leaves the caller's grid as if all |A|·m steps, every trial of every action, had been applied to it in turn |

## Left out

- Printing and plotting are not modelled. This covers the module-level scripts, the `simulate_*` drivers,
  `show_fire_status`, `show_fuel_status`, `__str__`, `__repr__` and the display check. They do I/O only.
- `src/random_policy.py` and `src/interactive_viz.py` are not part of this model. They are experiment
  loops and console I/O over operations not in the modelled source.
- `np.random` is not modelled. Samples are inputs, and sample ranges are preconditions where a property
  needs them. No statistical claim is made.
- In the planners, each step's draws are named by its position in the search tree. The program instead
  draws from one global stream in call order. So in the model, two top-level calls given the same `seed`
  repeat their draws, where the program's second call would continue the stream.
- Floating point is modelled as exact `real` arithmetic. Rounding is not modelled.
- The grid API that the planners call, which `src/wildfire.py` does not define, is kept abstract, as the
  parameters `Dynamics`, `utility`, `observe` and `Env`. Its source is not part of this model. This
  covers `set_resources`, a `transition` that returns a reward, `observation`, `grid.property`,
  `grid.fire`, `grid.A` and the `cost_per_resource` argument the drivers pass to `FireGrid`.
- `utility` and `observe` are functions of the state alone. So the model cannot represent a noisy
  `observation()`: two leaves in the same state always get the same value. The two calls to
  `observation()` in `approximate_utility` (`src/sparse_sample.py:13`) are one observation in the model.
- SparseSample.Plan: the leaf `approximate_utility` of `src/sparse_sample.py` multiplies two parts of
  `observation()`. That API is not in the modelled source, so the leaf is the abstract `utility`.
- DiscretizedLinear.Plan: `grid.A` is taken as a fixed list `acts`. Nothing in the modelled source
  assigns it, so it is assumed the same at every level.
- `copy.deepcopy` internals are not modelled. `Simulator.Copy` makes a new object holding the same state
  value.
- Python's dynamic typing is not modelled. `lookahead` returns a tuple at d ≤ 0 and a bare action
  otherwise, so the model has the two-case datatype `Decision`.
- Numeric types are not distinguished. The integer `0` that `__init__` and `transition` store is the
  real `0.0`, and `True`/`False` times a float is written as an `if`.

Kept as in the code, not corrected:

- Recursive calls drop the caller's `m` and `gamma`.
- `lookahead` passes `gamma` but not `pp` to the rollout.
- A rollout's leaf is `0.0`.
- The discretized search shares one grid across all its trials.
