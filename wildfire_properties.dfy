/** What one `transition` sweep (src/wildfire.py:67-84) does to each cell and to `reward`, proved about
    the sweep function `Wildfire.Sweep` that `FireGrid.Transition` is verified against, and the value
    ranges `FireGrid.__init__` produces. */
module WildfireProperties {
  import opened Wildfire

  /* ---- The order of the sweep ---- */

  /** Positions of the sweep in row-major order; (i, n) and (i + 1, 0) are the same moment. */
  predicate AtOrBefore(i: int, j: int, i2: int, j2: int) {
    i < i2 || (i == i2 && j <= j2)
  }

  /** Visiting (i, j) writes that cell only. */
  lemma VisitFrame(g: Grid, n: nat, i: nat, j: nat, draw: real, p: int, q: int)
    requires IsSquare(g, n) && i < n && j < n && 0 <= p < n && 0 <= q < n && (p, q) != (i, j)
    ensures Visit(g, n, i, j, draw).grid[p][q] == g[p][q]
  {
  }

  /** A cell the sweep has not reached yet still holds its value from before the transition. */
  lemma {:induction false} SweepUnvisited(g: Grid, n: nat, draws: seq<seq<real>>, i: nat, j: nat, p: int, q: int)
    requires IsSquare(g, n) && IsSquare(draws, n) && IsPosition(n, i, j)
    requires 0 <= p < n && 0 <= q < n && !Before(p, q, i, j)
    ensures SweepTo(g, n, draws, i, j).grid[p][q] == g[p][q]
    decreases i, j
  {
    if j > 0 {
      SweepUnvisited(g, n, draws, i, j - 1, p, q);
      VisitFrame(SweepTo(g, n, draws, i, j - 1).grid, n, i, j - 1, draws[i][j - 1], p, q);
    } else if i > 0 {
      SweepUnvisited(g, n, draws, i - 1, n, p, q);
    }
  }

  /** Once the sweep has passed a cell, later visits leave it alone. */
  lemma {:induction false} SweepSettled(g: Grid, n: nat, draws: seq<seq<real>>, i: nat, j: nat, i2: nat, j2: nat, p: int, q: int)
    requires IsSquare(g, n) && IsSquare(draws, n) && IsPosition(n, i, j) && IsPosition(n, i2, j2)
    requires AtOrBefore(i, j, i2, j2) && 0 <= p < n && 0 <= q < n && Before(p, q, i, j)
    ensures SweepTo(g, n, draws, i2, j2).grid[p][q] == SweepTo(g, n, draws, i, j).grid[p][q]
    decreases i2, j2
  {
    if (i2, j2) != (i, j) {
      if j2 > 0 {
        SweepSettled(g, n, draws, i, j, i2, j2 - 1, p, q);
        VisitFrame(SweepTo(g, n, draws, i2, j2 - 1).grid, n, i2, j2 - 1, draws[i2][j2 - 1], p, q);
      } else {
        SweepSettled(g, n, draws, i, j, i2 - 1, n, p, q);
      }
    }
  }

  /** The burning neighbours cell (i, j) sees when the sweep reaches it: the cells above and to the left
      with their flags after this transition, the cells below and to the right with their flags before. */
  function SeenNeighbours(before: Grid, after: Grid, n: nat, i: int, j: int): nat
    requires IsSquare(before, n) && IsSquare(after, n)
  {
    BurningAt(after, n, i - 1, j) + BurningAt(after, n, i, j - 1) + BurningAt(before, n, i + 1, j) + BurningAt(before, n, i, j + 1)
  }

  /** Cell (i, j) after `transition` is the one-cell rule applied to its old value, its own draw, and the
      neighbour flags of the partly updated grid: earlier cells already carry their new `fire`. */
  lemma SweepCell(g: Grid, n: nat, draws: seq<seq<real>>, i: nat, j: nat)
    requires IsSquare(g, n) && IsSquare(draws, n) && i < n && j < n
    ensures Sweep(g, n, draws).grid[i][j] ==
      UpdateCell(g[i][j], draws[i][j], SeenNeighbours(g, Sweep(g, n, draws).grid, n, i, j)).cell
  {
    var mid := SweepTo(g, n, draws, i, j).grid;
    var fin: Grid := Sweep(g, n, draws).grid;
    SweepUnvisited(g, n, draws, i, j, i, j);
    SweepSettled(g, n, draws, i, j + 1, n, 0, i, j);
    if i > 0 {
      SweepSettled(g, n, draws, i, j, n, 0, i - 1, j);
    }
    if j > 0 {
      SweepSettled(g, n, draws, i, j, n, 0, i, j - 1);
    }
    if i + 1 < n {
      SweepUnvisited(g, n, draws, i, j, i + 1, j);
    }
    if j + 1 < n {
      SweepUnvisited(g, n, draws, i, j, i, j + 1);
    }
    assert Neighbours(mid, n, i, j) == SeenNeighbours(g, fin, n, i, j);
  }

  /* ---- One cell ---- */

  /** A cell's dryness and resources are never written; a cell that is not burning keeps fuel and property. */
  lemma UpdateKeeps(c: Cell, draw: real, k: nat)
    ensures UpdateCell(c, draw, k).cell.dryness == c.dryness
    ensures UpdateCell(c, draw, k).cell.resources == c.resources
    ensures !c.fire ==> UpdateCell(c, draw, k).cell == c.(fire := UpdateCell(c, draw, k).cell.fire)
  {
  }

  /** The property a visit takes off `reward` is what the cell's property went down by. */
  lemma UpdateLoss(c: Cell, draw: real, k: nat)
    ensures UpdateCell(c, draw, k).lost == c.property - UpdateCell(c, draw, k).cell.property
  {
  }

  /* ---- The whole transition ---- */

  predicate FuelNonNegative(g: Grid, n: nat)
    requires IsSquare(g, n)
  {
    forall i, j :: 0 <= i < n && 0 <= j < n ==> g[i][j].fuel >= 0.0
  }

  /** Every draw is a `random_sample()`, in [0, 1). */
  predicate AreSamples(draws: seq<seq<real>>, n: nat)
    requires IsSquare(draws, n)
  {
    forall i, j :: 0 <= i < n && 0 <= j < n ==> IsSample(draws[i][j])
  }

  /** Dryness and resources are never written by `transition`. */
  lemma TransitionKeepsDrynessAndResources(g: Grid, n: nat, draws: seq<seq<real>>, i: nat, j: nat)
    requires IsSquare(g, n) && IsSquare(draws, n) && i < n && j < n
    ensures Sweep(g, n, draws).grid[i][j].dryness == g[i][j].dryness
    ensures Sweep(g, n, draws).grid[i][j].resources == g[i][j].resources
  {
    SweepCell(g, n, draws, i, j);
  }

  /** A burning cell goes out exactly when its fuel was below the burn fraction; its fuel becomes 0 in
      that case and `fuel - b` otherwise, so fuel that was 0 or more stays 0 or more. When the fuel
      equals the burn fraction the cell ends with no fuel and still burning. */
  lemma TransitionBurnsCell(g: Grid, n: nat, draws: seq<seq<real>>, i: nat, j: nat)
    requires IsSquare(g, n) && IsSquare(draws, n) && i < n && j < n && g[i][j].fire
    ensures var c := Sweep(g, n, draws).grid[i][j]; var b := BurnFraction(draws[i][j]);
      (!c.fire <==> g[i][j].fuel < b) &&
      c.fuel == (if g[i][j].fuel < b then 0.0 else g[i][j].fuel - b) &&
      (g[i][j].fuel >= 0.0 ==> c.fuel >= 0.0) &&
      (g[i][j].fuel == b ==> c.fuel == 0.0 && c.fire)
  {
    SweepCell(g, n, draws, i, j);
  }

  /** A burning cell keeps `1 - b` of its property, with `b = .2 * draw` in [0, .2); property that was
      0 or more stays between 0 and its old value. */
  lemma TransitionDamagesProperty(g: Grid, n: nat, draws: seq<seq<real>>, i: nat, j: nat)
    requires IsSquare(g, n) && IsSquare(draws, n) && i < n && j < n && g[i][j].fire
    requires IsSample(draws[i][j])
    ensures var c := Sweep(g, n, draws).grid[i][j]; var b := BurnFraction(draws[i][j]);
      0.0 <= b < 0.2 && c.property == g[i][j].property * (1.0 - b) &&
      (g[i][j].property >= 0.0 ==> 0.0 <= c.property <= g[i][j].property)
  {
    SweepCell(g, n, draws, i, j);
    var p, b := g[i][j].property, BurnFraction(draws[i][j]);
    assert p - p * b == p * (1.0 - b);
    if p >= 0.0 {
      ProductNonNegative(p, b);
      ProductNonNegative(p, 1.0 - b);
    }
  }

  lemma ProductNonNegative(x: real, y: real)
    requires x >= 0.0 && y >= 0.0
    ensures x * y >= 0.0
  {
  }

  /** A cell that is not burning catches fire exactly when its draw falls below its threshold; with no
      burning neighbour in sight, no fuel or no dryness that threshold is 0 and a sample never falls
      below it. */
  lemma TransitionIgnitesCell(g: Grid, n: nat, draws: seq<seq<real>>, i: nat, j: nat)
    requires IsSquare(g, n) && IsSquare(draws, n) && i < n && j < n && !g[i][j].fire
    ensures var fin := Sweep(g, n, draws).grid; var k := SeenNeighbours(g, fin, n, i, j);
      fin[i][j] == g[i][j].(fire := draws[i][j] < IgnitionThreshold(k, g[i][j])) &&
      (draws[i][j] >= 0.0 && (k == 0 || g[i][j].fuel == 0.0 || g[i][j].dryness == 0.0) ==> !fin[i][j].fire)
  {
    SweepCell(g, n, draws, i, j);
  }

  /** Fuel that is 0 or more everywhere before `transition` is 0 or more everywhere after. */
  lemma TransitionKeepsFuelNonNegative(g: Grid, n: nat, draws: seq<seq<real>>)
    requires IsSquare(g, n) && IsSquare(draws, n) && FuelNonNegative(g, n)
    ensures FuelNonNegative(Sweep(g, n, draws).grid, n)
  {
    var fin: Grid := Sweep(g, n, draws).grid;
    forall i: int, j: int | 0 <= i < n && 0 <= j < n ensures fin[i][j].fuel >= 0.0 {
      SweepCell(g, n, draws, i, j);
    }
  }

  /** Property that is 0 or more everywhere never grows and stays 0 or more. */
  lemma TransitionPropertyNonIncreasing(g: Grid, n: nat, draws: seq<seq<real>>)
    requires IsSquare(g, n) && IsSquare(draws, n) && AreSamples(draws, n) && NoNegativeProperty(g)
    ensures var fin := Sweep(g, n, draws).grid;
      NoNegativeProperty(fin) &&
      forall i, j :: 0 <= i < n && 0 <= j < n ==> fin[i][j].property <= g[i][j].property
  {
    var fin: Grid := Sweep(g, n, draws).grid;
    forall i: int, j: int | 0 <= i < n && 0 <= j < n ensures 0.0 <= fin[i][j].property <= g[i][j].property {
      if g[i][j].fire {
        TransitionDamagesProperty(g, n, draws, i, j);
      } else {
        SweepCell(g, n, draws, i, j);
      }
    }
  }

  /* ---- The reward ---- */

  lemma {:induction false} RowSumUpdate(row: seq<Cell>, f: Cell -> real, j: nat, c: Cell)
    requires j < |row|
    ensures RowSum(row[j := c], f) == RowSum(row, f) - f(row[j]) + f(c)
    decreases |row|
  {
    var last := |row| - 1;
    assert row[j := c][..last] == if j == last then row[..last] else row[..last][j := c];
    if j < last {
      RowSumUpdate(row[..last], f, j, c);
    }
  }

  /** Replacing one cell changes a grid sum by the difference of `f` at that cell. */
  lemma {:induction false} GridSumUpdate(g: Grid, f: Cell -> real, i: nat, j: nat, c: Cell)
    requires i < |g| && j < |g[i]|
    ensures GridSum(g[i := g[i][j := c]], f) == GridSum(g, f) - f(g[i][j]) + f(c)
    decreases |g|
  {
    var last := |g| - 1;
    var h := g[i := g[i][j := c]];
    assert h[..last] == if i == last then g[..last] else g[..last][i := g[i][j := c]];
    if i < last {
      GridSumUpdate(g[..last], f, i, j, c);
    } else {
      RowSumUpdate(g[i], f, j, c);
    }
  }

  /** One visit takes off `reward` exactly the drop in total property. */
  lemma VisitLostIsPropertyDrop(g: Grid, n: nat, i: nat, j: nat, draw: real)
    requires IsSquare(g, n) && i < n && j < n
    ensures Visit(g, n, i, j, draw).lost == TotalProperty(g) - TotalProperty(Visit(g, n, i, j, draw).grid)
  {
    var c := g[i][j];
    var k := Neighbours(g, n, i, j);
    var u := UpdateCell(c, draw, k);
    UpdateLoss(c, draw, k);
    GridSumUpdate(g, PropertyOf, i, j, u.cell);
    assert Visit(g, n, i, j, draw) == Swept(g[i := g[i][j := u.cell]], u.lost);
  }

  /** The property taken off `reward` up to any point of the sweep is exactly the drop in total property. */
  lemma {:induction false} SweepToLostIsPropertyDrop(g: Grid, n: nat, draws: seq<seq<real>>, i: nat, j: nat)
    requires IsSquare(g, n) && IsSquare(draws, n) && IsPosition(n, i, j)
    ensures SweepTo(g, n, draws, i, j).lost == TotalProperty(g) - TotalProperty(SweepTo(g, n, draws, i, j).grid)
    decreases i, j
  {
    if j > 0 {
      var s := SweepTo(g, n, draws, i, j - 1);
      var v := Visit(s.grid, n, i, j - 1, draws[i][j - 1]);
      calc {
        SweepTo(g, n, draws, i, j).lost;
        s.lost + v.lost;
        { SweepToLostIsPropertyDrop(g, n, draws, i, j - 1); }
        (TotalProperty(g) - TotalProperty(s.grid)) + v.lost;
        { VisitLostIsPropertyDrop(s.grid, n, i, j - 1, draws[i][j - 1]); }
        (TotalProperty(g) - TotalProperty(s.grid)) + (TotalProperty(s.grid) - TotalProperty(v.grid));
        TotalProperty(g) - TotalProperty(SweepTo(g, n, draws, i, j).grid);
      }
    } else if i > 0 {
      SweepToLostIsPropertyDrop(g, n, draws, i - 1, n);
    }
  }

  /** `transition` lowers `reward` by exactly the property its regions lost. */
  lemma TransitionLostIsPropertyDrop(g: Grid, n: nat, draws: seq<seq<real>>)
    requires IsSquare(g, n) && IsSquare(draws, n)
    ensures Sweep(g, n, draws).lost == TotalProperty(g) - TotalProperty(Sweep(g, n, draws).grid)
  {
    SweepToLostIsPropertyDrop(g, n, draws, n, 0);
  }

  lemma {:induction false} RowSumMonotone(r: seq<Cell>, s: seq<Cell>, f: Cell -> real)
    requires |r| == |s| && forall j :: 0 <= j < |r| ==> f(r[j]) <= f(s[j])
    ensures RowSum(r, f) <= RowSum(s, f)
    decreases |r|
  {
    if r != [] {
      RowSumMonotone(r[..|r| - 1], s[..|s| - 1], f);
    }
  }

  /** A grid sum is monotone in `f` taken cell by cell. */
  lemma {:induction false} GridSumMonotone(g: Grid, h: Grid, f: Cell -> real)
    requires |g| == |h| && forall i :: 0 <= i < |g| ==> |g[i]| == |h[i]|
    requires forall i, j :: 0 <= i < |g| && 0 <= j < |g[i]| ==> f(g[i][j]) <= f(h[i][j])
    ensures GridSum(g, f) <= GridSum(h, f)
    decreases |g|
  {
    if g != [] {
      var last := |g| - 1;
      GridSumMonotone(g[..last], h[..last], f);
      RowSumMonotone(g[last], h[last], f);
    }
  }

  /** The property at risk in a row lies between 0 and the row's whole property. */
  lemma {:induction false} RowExposureBounds(row: seq<Cell>)
    requires forall j :: 0 <= j < |row| ==> row[j].property >= 0.0
    ensures 0.0 <= RowSum(row, AtRisk) <= RowSum(row, PropertyOf)
    decreases |row|
  {
    if row != [] {
      RowExposureBounds(row[..|row| - 1]);
    }
  }

  /** With no negative property, the property on fire is at least 0 and at most all the property. */
  lemma {:induction false} ExposureBounds(g: Grid)
    requires NoNegativeProperty(g)
    ensures 0.0 <= Exposure(g) <= TotalProperty(g)
    decreases |g|
  {
    if g != [] {
      ExposureBounds(g[..|g| - 1]);
      RowExposureBounds(g[|g| - 1]);
    }
  }

  /** A row with no fire has nothing at risk. */
  lemma {:induction false} RowExposureNoFire(row: seq<Cell>)
    requires forall j :: 0 <= j < |row| ==> !row[j].fire
    ensures RowSum(row, AtRisk) == 0.0
    decreases |row|
  {
    if row != [] {
      RowExposureNoFire(row[..|row| - 1]);
    }
  }

  /** A grid with no fire has nothing at risk, whatever its property. */
  lemma {:induction false} ExposureNoFire(g: Grid)
    requires NoFire(g)
    ensures Exposure(g) == 0.0
    decreases |g|
  {
    if g != [] {
      ExposureNoFire(g[..|g| - 1]);
      RowExposureNoFire(g[|g| - 1]);
    }
  }

  /** With property 0 or more everywhere and sampled draws, `transition` never raises `reward`. */
  lemma TransitionRewardNonIncreasing(g: Grid, n: nat, draws: seq<seq<real>>)
    requires IsSquare(g, n) && IsSquare(draws, n) && AreSamples(draws, n) && NoNegativeProperty(g)
    ensures Sweep(g, n, draws).lost >= 0.0
  {
    TransitionLostIsPropertyDrop(g, n, draws);
    TransitionPropertyNonIncreasing(g, n, draws);
    GridSumMonotone(Sweep(g, n, draws).grid, g, PropertyOf);
  }

  /* ---- The initial grid ---- */

  /** `FireGrid.__init__` with sampled draws: fuel and dryness in [0, 1), property in [0, 100), no
      resources, and fire exactly where the fire sample fell below `fire_prob`. */
  lemma InitialGridRanges(draws: seq<seq<InitDraw>>, n: nat, fireProb: real, i: nat, j: nat)
    requires IsSquare(draws, n) && i < n && j < n
    requires var d := draws[i][j]; IsSample(d.fire) && IsSample(d.dryness) && IsSample(d.property) && IsSample(d.fuel)
    ensures var c := InitialGrid(draws, n, fireProb)[i][j];
      0.0 <= c.fuel < 1.0 && 0.0 <= c.dryness < 1.0 && 0.0 <= c.property < 100.0 && !c.resources &&
      (c.fire <==> draws[i][j].fire < fireProb)
  {
  }
}
