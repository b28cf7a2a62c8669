/** Model of src/wildfire.py: the regions of the grid, the grid that owns them, the count of burning
    neighbours and one `transition` sweep. Random samples become explicit inputs: the sweep consumes
    one draw per cell, `draws[i][j]` when it visits cell (i, j). */
module Wildfire {

  /** One region (`StateRegion`). */
  datatype Cell = Cell(fire: bool, dryness: real, fuel: real, property: real, resources: bool)

  /** The grid's cells as a value, row by row. */
  type Grid = seq<seq<Cell>>

  predicate IsSquare<T>(g: seq<seq<T>>, n: nat) {
    |g| == n && forall i :: 0 <= i < n ==> |g[i]| == n
  }

  /** 1 when (i, j) lies inside the grid and that cell is on fire, 0 otherwise. */
  function BurningAt(g: Grid, n: nat, i: int, j: int): nat
    requires IsSquare(g, n)
  {
    if 0 <= i < n && 0 <= j < n && g[i][j].fire then 1 else 0
  }

  /** The burning cells among the up, down, left and right neighbours of (i, j) in the grid `g`. */
  function Neighbours(g: Grid, n: nat, i: int, j: int): nat
    requires IsSquare(g, n)
  {
    BurningAt(g, n, i - 1, j) + BurningAt(g, n, i + 1, j) + BurningAt(g, n, i, j - 1) + BurningAt(g, n, i, j + 1)
  }

  function Dist(a: int, b: int): nat {
    if a < b then b - a else a - b
  }

  /** The same neighbourhood stated geometrically: burning cells of the grid at Manhattan distance 1. */
  ghost function BurningNeighbourSet(g: Grid, n: nat, i: int, j: int): set<(int, int)>
    requires IsSquare(g, n)
  {
    set p, q | 0 <= p < n && 0 <= q < n && Dist(p, i) + Dist(q, j) == 1 && g[p][q].fire :: (p, q)
  }

  /** The burning in-grid cell among {(p, q)}, as a set of at most one element. */
  ghost function BurningCell(g: Grid, n: nat, p: int, q: int): (r: set<(int, int)>)
    requires IsSquare(g, n)
    ensures |r| == BurningAt(g, n, p, q)
  {
    if BurningAt(g, n, p, q) == 1 then {(p, q)} else {}
  }

  lemma NeighbourSetSplits(g: Grid, n: nat, i: int, j: int)
    requires IsSquare(g, n)
    ensures BurningNeighbourSet(g, n, i, j) ==
      BurningCell(g, n, i - 1, j) + BurningCell(g, n, i + 1, j) + BurningCell(g, n, i, j - 1) + BurningCell(g, n, i, j + 1)
  {
    var all := BurningNeighbourSet(g, n, i, j);
    var parts := BurningCell(g, n, i - 1, j) + BurningCell(g, n, i + 1, j) + BurningCell(g, n, i, j - 1) + BurningCell(g, n, i, j + 1);
    forall c | c in all ensures c in parts {
      Adjacent(c.0, c.1, i, j);
    }
    NeighbourInSet(g, n, i, j, i - 1, j);
    NeighbourInSet(g, n, i, j, i + 1, j);
    NeighbourInSet(g, n, i, j, i, j - 1);
    NeighbourInSet(g, n, i, j, i, j + 1);
  }

  lemma NeighbourInSet(g: Grid, n: nat, i: int, j: int, p: int, q: int)
    requires IsSquare(g, n) && Dist(p, i) + Dist(q, j) == 1
    ensures BurningCell(g, n, p, q) <= BurningNeighbourSet(g, n, i, j)
  {
  }

  /** The cells at Manhattan distance 1 are the four orthogonal neighbours. */
  lemma Adjacent(p: int, q: int, i: int, j: int)
    requires Dist(p, i) + Dist(q, j) == 1
    ensures (p, q) == (i - 1, j) || (p, q) == (i + 1, j) || (p, q) == (i, j - 1) || (p, q) == (i, j + 1)
  {
    if p == i {
      assert Dist(q, j) == 1;
    } else {
      assert Dist(p, i) == 1 && q == j;
    }
  }

  /** The four-term count is the size of the geometric neighbourhood, so at most 4. */
  lemma NeighboursCountSet(g: Grid, n: nat, i: int, j: int)
    requires IsSquare(g, n)
    ensures Neighbours(g, n, i, j) == |BurningNeighbourSet(g, n, i, j)| <= 4
  {
    NeighbourSetSplits(g, n, i, j);
    var up, down := BurningCell(g, n, i - 1, j), BurningCell(g, n, i + 1, j);
    var left, right := BurningCell(g, n, i, j - 1), BurningCell(g, n, i, j + 1);
    assert up !! down && (up + down) !! left && (up + down + left) !! right;
    assert |up + down| == |up| + |down|;
    assert |up + down + left| == |up + down| + |left|;
    assert |up + down + left + right| == |up + down + left| + |right|;
  }

  /** The burn fraction `.2 * random_sample()` of a burning cell. */
  function BurnFraction(draw: real): real {
    0.2 * draw
  }

  /** What visiting one cell does: its new value and the property it lost. */
  datatype Update = Update(cell: Cell, lost: real)

  /** The rule for one cell `c` that consumes `draw` and sees `k` burning neighbours. A burning cell
      burns `b` of its fuel (or all of it, and goes out, when it has less than `b`) and loses `b` of its
      property; any other cell catches fire when the draw falls below `k / 4 * dryness * fuel`. */
  function UpdateCell(c: Cell, draw: real, k: nat): Update {
    if c.fire then
      var b := BurnFraction(draw);
      var burnt := if c.fuel < b then c.(fuel := 0.0, fire := false) else c.(fuel := c.fuel - b);
      var lost := burnt.property * b;
      Update(burnt.(property := burnt.property - lost), lost)
    else
      Update(c.(fire := draw < IgnitionThreshold(k, c)), 0.0)
  }

  /** The ignition threshold `neighbors / 4 * dryness * fuel` of a cell that is not burning. */
  function IgnitionThreshold(k: nat, c: Cell): real {
    (k as real) / 4.0 * c.dryness * c.fuel
  }

  /** A grid together with the property lost so far in the sweep. */
  datatype Swept = Swept(grid: Grid, lost: real)

  /** Visit cell (i, j) of `g`: its neighbours are counted in `g` as it stands, and only (i, j) is written. */
  function Visit(g: Grid, n: nat, i: nat, j: nat, draw: real): (r: Swept)
    requires IsSquare(g, n) && i < n && j < n
    ensures IsSquare(r.grid, n)
  {
    var u := UpdateCell(g[i][j], draw, Neighbours(g, n, i, j));
    Swept(g[i := g[i][j := u.cell]], u.lost)
  }

  /** Where cells stand in the row-major sweep: (p, q) is visited before (i, j). */
  predicate Before(p: int, q: int, i: int, j: int) {
    p < i || (p == i && q < j)
  }

  /** A sweep position: (i, j) with a cell still to visit in row i, or the end (n, 0). */
  predicate IsPosition(n: nat, i: nat, j: nat) {
    (i < n && j <= n) || (i == n && j == 0)
  }

  /** The grid and the property lost once the sweep has visited, in row-major order and in place,
      every cell before (i, j). Each visit sees the grid as earlier visits left it. */
  function SweepTo(g: Grid, n: nat, draws: seq<seq<real>>, i: nat, j: nat): (r: Swept)
    requires IsSquare(g, n) && IsSquare(draws, n) && IsPosition(n, i, j)
    ensures IsSquare(r.grid, n)
    decreases i, j
  {
    if j > 0 then
      var s := SweepTo(g, n, draws, i, j - 1);
      var v := Visit(s.grid, n, i, j - 1, draws[i][j - 1]);
      Swept(v.grid, s.lost + v.lost)
    else if i > 0 then
      SweepTo(g, n, draws, i - 1, n)
    else
      Swept(g, 0.0)
  }

  /** One whole `transition`: every cell visited once. */
  function Sweep(g: Grid, n: nat, draws: seq<seq<real>>): (r: Swept)
    requires IsSquare(g, n) && IsSquare(draws, n)
    ensures IsSquare(r.grid, n)
  {
    SweepTo(g, n, draws, n, 0)
  }

  /** Sum of `f` over one row, left to right. */
  function RowSum(row: seq<Cell>, f: Cell -> real): real {
    if row == [] then 0.0 else RowSum(row[..|row| - 1], f) + f(row[|row| - 1])
  }

  /** Sum of `f` over every cell, row by row. */
  function GridSum(g: Grid, f: Cell -> real): real {
    if g == [] then 0.0 else GridSum(g[..|g| - 1], f) + RowSum(g[|g| - 1], f)
  }

  function PropertyOf(c: Cell): real {
    c.property
  }

  /** The property of all regions together. */
  function TotalProperty(g: Grid): real {
    GridSum(g, PropertyOf)
  }

  /** `fire * property` of one region: its property when it burns, else 0. */
  function AtRisk(c: Cell): real {
    if c.fire then c.property else 0.0
  }

  /** The property currently on fire, summed over the regions. */
  function Exposure(g: Grid): real {
    GridSum(g, AtRisk)
  }

  /** No region has negative property. */
  predicate NoNegativeProperty(g: Grid) {
    forall i, j :: 0 <= i < |g| && 0 <= j < |g[i]| ==> g[i][j].property >= 0.0
  }

  /** No region is on fire. */
  predicate NoFire(g: Grid) {
    forall i, j :: 0 <= i < |g| && 0 <= j < |g[i]| ==> !g[i][j].fire
  }

  /** The four samples `__init__` takes for one region, in the order it takes them. */
  datatype InitDraw = InitDraw(fire: real, dryness: real, property: real, fuel: real)

  /** The region `__init__` builds from its samples: fire when the sample is below `fire_prob`,
      property scaled to 100, no resources. */
  function NewCell(d: InitDraw, fireProb: real): Cell {
    Cell(d.fire < fireProb, d.dryness, d.fuel, 100.0 * d.property, false)
  }

  function InitialGrid(draws: seq<seq<InitDraw>>, n: nat, fireProb: real): (g: Grid)
    requires IsSquare(draws, n)
    ensures IsSquare(g, n)
  {
    seq(n, i requires 0 <= i < n => seq(n, j requires 0 <= j < n => NewCell(draws[i][j], fireProb)))
  }

  /** `np.random.random_sample()` returns values in [0, 1). */
  predicate IsSample(x: real) {
    0.0 <= x < 1.0
  }

  /** The default `fire_prob` of `FireGrid.__init__`. */
  const DefaultFireProb: real := 0.3

  /** The grid of regions, updated in place by `Transition`. */
  class FireGrid {
    const n: nat
    var S: array2<Cell>
    var reward: real

    ghost predicate Valid()
      reads this
    {
      S.Length0 == n && S.Length1 == n
    }

    /** The cells as a value. */
    ghost function Cells(): (g: Grid)
      reads this, S
      requires Valid()
      ensures IsSquare(g, n)
    {
      var a := S;
      seq(n, i requires 0 <= i < a.Length0 reads a =>
        seq(n, j requires 0 <= j < a.Length1 reads a => a[i, j]))
    }

    /** The array holds the grid `g`, cell by cell. */
    ghost predicate Mirrors(g: Grid)
      reads this, S
      requires Valid() && IsSquare(g, n)
    {
      forall p, q :: 0 <= p < n && 0 <= q < n ==> S[p, q] == g[p][q]
    }

    lemma CellsAre(g: Grid)
      requires Valid() && IsSquare(g, n) && Mirrors(g)
      ensures Cells() == g
    {
      var h := Cells();
      forall p | 0 <= p < n ensures h[p] == g[p] {
        assert forall q :: 0 <= q < n ==> h[p][q] == g[p][q];
      }
    }

    /** `FireGrid(n, fire_prob)`: region (i, j) is built from `draws[i][j]`, row by row; reward 0. */
    constructor (n: nat, draws: seq<seq<InitDraw>>, fireProb: real := DefaultFireProb)
      requires IsSquare(draws, n)
      ensures Valid() && fresh(S) && this.n == n
      ensures reward == 0.0
      ensures Cells() == InitialGrid(draws, n, fireProb)
    {
      this.n := n;
      reward := 0.0;
      var cells := new Cell[n, n];
      var i := 0;
      while i < n
        invariant 0 <= i <= n
        invariant forall p, q :: 0 <= p < i && 0 <= q < n ==> cells[p, q] == NewCell(draws[p][q], fireProb)
      {
        var j := 0;
        while j < n
          invariant 0 <= j <= n
          invariant forall p, q :: 0 <= p < i && 0 <= q < n ==> cells[p, q] == NewCell(draws[p][q], fireProb)
          invariant forall q :: 0 <= q < j ==> cells[i, q] == NewCell(draws[i][q], fireProb)
        {
          var d := draws[i][j];
          var fire := d.fire < fireProb;
          var dryness := d.dryness;
          var property := 100.0 * d.property;
          var fuel := d.fuel;
          cells[i, j] := Cell(fire, dryness, fuel, property, false);
          j := j + 1;
        }
        i := i + 1;
      }
      S := cells;
      new;
      assert Cells() == InitialGrid(draws, n, fireProb) by {
        var g, h := Cells(), InitialGrid(draws, n, fireProb);
        forall p | 0 <= p < n ensures g[p] == h[p] {
          assert forall q :: 0 <= q < n ==> g[p][q] == h[p][q];
        }
      }
    }

    /** `neighbors_on_fire(i, j)`: the burning cells among the in-grid up, down, left and right neighbours. */
    method NeighborsOnFire(i: nat, j: nat) returns (k: nat)
      requires Valid() && i < n && j < n
      ensures k == Neighbours(Cells(), n, i, j)
      ensures k == |BurningNeighbourSet(Cells(), n, i, j)| && k <= 4
    {
      ghost var g := Cells();
      k := 0;
      if i - 1 >= 0 {
        k := k + (if S[i - 1, j].fire then 1 else 0);
      }
      assert k == BurningAt(g, n, i - 1, j);
      if i + 1 < n {
        k := k + (if S[i + 1, j].fire then 1 else 0);
      }
      assert k == BurningAt(g, n, i - 1, j) + BurningAt(g, n, i + 1, j);
      if j - 1 >= 0 {
        k := k + (if S[i, j - 1].fire then 1 else 0);
      }
      assert k == BurningAt(g, n, i - 1, j) + BurningAt(g, n, i + 1, j) + BurningAt(g, n, i, j - 1);
      if j + 1 < n {
        k := k + (if S[i, j + 1].fire then 1 else 0);
      }
      NeighboursCountSet(g, n, i, j);
    }

    /** The body of the sweep for cell (i, j), which consumes `draw`: the array holds `g` before and
        `Visit(g, ...)` after, and `reward` goes down by the property the cell lost. */
    method VisitCell(i: nat, j: nat, draw: real, ghost g: Grid)
      requires Valid() && IsSquare(g, n) && Mirrors(g) && i < n && j < n
      modifies S, this`reward
      ensures Valid() && Mirrors(Visit(g, n, i, j, draw).grid)
      ensures reward == old(reward) - Visit(g, n, i, j, draw).lost
    {
      if S[i, j].fire {
        Burn(i, j, draw, g);
      } else {
        Ignite(i, j, draw, g);
      }
    }

    /** A burning cell burns `.2 * draw` of its fuel, going out when it had less than that, and loses
        the same fraction of its property, which comes off `reward`. */
    method Burn(i: nat, j: nat, draw: real, ghost g: Grid)
      requires Valid() && IsSquare(g, n) && Mirrors(g) && i < n && j < n && g[i][j].fire
      modifies S, this`reward
      ensures Valid() && Mirrors(Visit(g, n, i, j, draw).grid)
      ensures reward == old(reward) - Visit(g, n, i, j, draw).lost
    {
      var c := S[i, j];
      assert c == g[i][j];
      var burned := 0.2 * draw;
      if c.fuel < burned {
        c := c.(fuel := 0.0, fire := false);
      } else {
        c := c.(fuel := c.fuel - burned);
      }
      var lost := c.property * burned;
      reward := reward - lost;
      c := c.(property := c.property - lost);
      ghost var u := UpdateCell(g[i][j], draw, Neighbours(g, n, i, j));
      assert burned == BurnFraction(draw);
      assert u.lost == lost;
      assert u.cell == c;
      S[i, j] := c;
      assert Visit(g, n, i, j, draw) == Swept(g[i := g[i][j := c]], lost);
    }

    /** A cell that is not burning catches fire when `draw` falls below its ignition threshold, which
        counts its burning neighbours in the array as it stands. */
    method Ignite(i: nat, j: nat, draw: real, ghost g: Grid)
      requires Valid() && IsSquare(g, n) && Mirrors(g) && i < n && j < n && !g[i][j].fire
      modifies S
      ensures Valid() && Mirrors(Visit(g, n, i, j, draw).grid)
      ensures Visit(g, n, i, j, draw).lost == 0.0
    {
      CellsAre(g);
      var k := NeighborsOnFire(i, j);
      var c := S[i, j];
      var threshold := IgnitionThreshold(k, c);
      c := c.(fire := draw < threshold);
      assert c == UpdateCell(g[i][j], draw, Neighbours(g, n, i, j)).cell;
      S[i, j] := c;
      assert Visit(g, n, i, j, draw) == Swept(g[i := g[i][j := c]], 0.0);
    }

    /** `transition()`: one row-major sweep over the cells, in place, with `draws[i][j]` the sample
        taken at cell (i, j); `reward` goes down by the property lost. */
    method Transition(draws: seq<seq<real>>)
      requires Valid() && IsSquare(draws, n)
      modifies S, this`reward
      ensures Valid()
      ensures Cells() == Sweep(old(Cells()), n, draws).grid
      ensures reward == old(reward) - Sweep(old(Cells()), n, draws).lost
    {
      ghost var g0 := Cells();
      var i := 0;
      while i < n
        invariant 0 <= i <= n
        invariant Mirrors(SweepTo(g0, n, draws, i, 0).grid)
        invariant reward == old(reward) - SweepTo(g0, n, draws, i, 0).lost
      {
        SweepRow(i, draws, g0, old(reward));
        i := i + 1;
      }
      CellsAre(SweepTo(g0, n, draws, n, 0).grid);
    }

    /** One row of the sweep: cells (i, 0) .. (i, n - 1), left to right; `r0` is the reward before
        the transition. */
    method SweepRow(i: nat, draws: seq<seq<real>>, ghost g0: Grid, ghost r0: real)
      requires Valid() && IsSquare(g0, n) && IsSquare(draws, n) && i < n
      requires Mirrors(SweepTo(g0, n, draws, i, 0).grid)
      requires reward == r0 - SweepTo(g0, n, draws, i, 0).lost
      modifies S, this`reward
      ensures Mirrors(SweepTo(g0, n, draws, i + 1, 0).grid)
      ensures reward == r0 - SweepTo(g0, n, draws, i + 1, 0).lost
    {
      var j := 0;
      while j < n
        invariant 0 <= j <= n
        invariant Mirrors(SweepTo(g0, n, draws, i, j).grid)
        invariant reward == r0 - SweepTo(g0, n, draws, i, j).lost
      {
        VisitCell(i, j, draws[i][j], SweepTo(g0, n, draws, i, j).grid);
        j := j + 1;
      }
    }
  }
}
