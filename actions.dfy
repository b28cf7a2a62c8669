/** Model of `all_possible_actions` (src/sparse_sample.py:15-19): every n x n boolean matrix, in the
    order `itertools.product([False, True], repeat=n**2)` lists the flat tuples, each reshaped row by row. */
module Actions {
  import Wildfire

  /** A resource placement: `a[i][j]` is true when region (i, j) gets resources. */
  type Action = seq<seq<bool>>

  function Pow2(k: nat): (r: nat)
    ensures r >= 1
  {
    if k == 0 then 1 else 2 * Pow2(k - 1)
  }

  /** Put `b` in front of every tuple of `ts`. */
  function Prepend(b: bool, ts: seq<seq<bool>>): (r: seq<seq<bool>>)
    ensures |r| == |ts| && forall i :: 0 <= i < |ts| ==> r[i] == [b] + ts[i]
  {
    seq(|ts|, i requires 0 <= i < |ts| => [b] + ts[i])
  }

  /** `itertools.product([False, True], repeat=k)`: the first position varies slowest, False before True. */
  function Product(k: nat): (r: seq<seq<bool>>)
    ensures |r| == Pow2(k)
    ensures forall i :: 0 <= i < |r| ==> |r[i]| == k
  {
    if k == 0 then [[]] else Prepend(false, Product(k - 1)) + Prepend(true, Product(k - 1))
  }

  /** `np.asarray(t).reshape(n, rows)` for a flat tuple: consecutive runs of `n` become the rows. */
  function Reshape(t: seq<bool>, n: nat, rows: nat): (m: Action)
    requires |t| == n * rows
    ensures |m| == rows && forall i :: 0 <= i < rows ==> |m[i]| == n
    decreases rows
  {
    if rows == 0 then []
    else
      assert |t| == n + n * (rows - 1);
      [t[..n]] + Reshape(t[n..], n, rows - 1)
  }

  /** `all_possible_actions(n)`. */
  function AllPossibleActions(n: nat): (r: seq<Action>)
    ensures |r| == Pow2(n * n)
  {
    var ts := Product(n * n);
    seq(|ts|, i requires 0 <= i < |ts| => Reshape(ts[i], n, n))
  }

  /** A matrix read row by row, the inverse of `Reshape`. */
  function Flatten(m: Action): seq<bool> {
    if m == [] then [] else m[0] + Flatten(m[1..])
  }

  /** A tuple read as a binary number, first position most significant, True as 1. */
  function Value(t: seq<bool>): nat {
    if t == [] then 0 else (if t[0] then Pow2(|t| - 1) else 0) + Value(t[1..])
  }

  lemma {:induction false} ValueBound(t: seq<bool>)
    ensures Value(t) < Pow2(|t|)
  {
    if t != [] {
      ValueBound(t[1..]);
    }
  }

  /** Tuple i of the product of length k: its first position is False in the first half, True in the
      second, and the rest is a tuple of the product of length k - 1. */
  lemma ProductAt(k: nat, i: nat)
    requires 0 < k && i < Pow2(k)
    ensures var half := Pow2(k - 1);
      Product(k)[i] == if i < half then [false] + Product(k - 1)[i] else [true] + Product(k - 1)[i - half]
  {
  }

  /** The i-th tuple of the product is i written in binary: the list counts up from all-False. */
  lemma {:induction false} ProductCounts(k: nat, i: nat)
    requires i < Pow2(k)
    ensures Value(Product(k)[i]) == i
  {
    if k > 0 {
      var half := Pow2(k - 1);
      var t := Product(k)[i];
      ProductAt(k, i);
      assert |t| == k;
      if i < half {
        assert !t[0] && t[1..] == Product(k - 1)[i];
        ProductCounts(k - 1, i);
        assert Value(t) == Value(t[1..]);
      } else {
        assert t[0] && t[1..] == Product(k - 1)[i - half];
        ProductCounts(k - 1, i - half);
        assert Value(t) == half + Value(t[1..]);
      }
    }
  }

  /** Every tuple of length k sits in the product at the position its binary value names. */
  lemma {:induction false} ProductHasEvery(t: seq<bool>)
    ensures Value(t) < Pow2(|t|) && Product(|t|)[Value(t)] == t
  {
    ValueBound(t);
    if t != [] {
      var k, rest := |t|, t[1..];
      var half, v := Pow2(k - 1), Value(t);
      ProductHasEvery(rest);
      assert v == (if t[0] then half else 0) + Value(rest);
      ProductAt(k, v);
      assert t == [t[0]] + rest;
      if t[0] {
        assert Product(k)[v] == [true] + Product(k - 1)[Value(rest)];
      } else {
        assert Product(k)[v] == [false] + Product(k - 1)[Value(rest)];
      }
    }
  }

  lemma {:induction false} FlattenReshape(t: seq<bool>, n: nat, rows: nat)
    requires |t| == n * rows
    ensures Flatten(Reshape(t, n, rows)) == t
    decreases rows
  {
    if rows > 0 {
      assert |t| == n + n * (rows - 1);
      var m := Reshape(t, n, rows);
      assert m[1..] == Reshape(t[n..], n, rows - 1);
      FlattenReshape(t[n..], n, rows - 1);
      assert t == t[..n] + t[n..];
    }
  }

  lemma {:induction false} FlattenLength(m: Action, n: nat, rows: nat)
    requires |m| == rows && forall i :: 0 <= i < rows ==> |m[i]| == n
    ensures |Flatten(m)| == n * rows
    decreases rows
  {
    if rows > 0 {
      var rest := m[1..];
      assert forall i :: 0 <= i < rows - 1 ==> |rest[i]| == n by {
        forall i | 0 <= i < rows - 1 ensures |rest[i]| == n { assert rest[i] == m[i + 1]; }
      }
      FlattenLength(rest, n, rows - 1);
      assert Flatten(m) == m[0] + Flatten(rest);
      assert n * rows == n + n * (rows - 1);
    }
  }

  lemma {:induction false} ReshapeFlatten(m: Action, n: nat, rows: nat)
    requires |m| == rows && forall i :: 0 <= i < rows ==> |m[i]| == n
    ensures |Flatten(m)| == n * rows && Reshape(Flatten(m), n, rows) == m
    decreases rows
  {
    FlattenLength(m, n, rows);
    if rows > 0 {
      var rest := m[1..];
      assert forall i :: 0 <= i < rows - 1 ==> |rest[i]| == n by {
        forall i | 0 <= i < rows - 1 ensures |rest[i]| == n { assert rest[i] == m[i + 1]; }
      }
      ReshapeFlatten(rest, n, rows - 1);
      var t := Flatten(m);
      assert t == m[0] + Flatten(rest);
      assert t[..n] == m[0] && t[n..] == Flatten(rest);
      calc {
        Reshape(t, n, rows);
        [t[..n]] + Reshape(t[n..], n, rows - 1);
        [m[0]] + Reshape(Flatten(rest), n, rows - 1);
        [m[0]] + rest;
        m;
      }
    }
  }

  /** Every action is n x n, and reading action i row by row gives i in binary: the actions come in
      `itertools.product` order, from all-False upwards. */
  lemma ActionsCount(n: nat, i: nat)
    requires i < Pow2(n * n)
    ensures Wildfire.IsSquare(AllPossibleActions(n)[i], n)
    ensures Value(Flatten(AllPossibleActions(n)[i])) == i
  {
    var t := Product(n * n)[i];
    FlattenReshape(t, n, n);
    ProductCounts(n * n, i);
  }

  /** No action is listed twice. */
  lemma ActionsDistinct(n: nat, i: nat, j: nat)
    requires i < j < Pow2(n * n)
    ensures AllPossibleActions(n)[i] != AllPossibleActions(n)[j]
  {
    ActionsCount(n, i);
    ActionsCount(n, j);
  }

  /** Every n x n boolean matrix is listed, at the position its row-by-row binary reading names. */
  lemma ActionsComplete(n: nat, m: Action)
    requires Wildfire.IsSquare(m, n)
    ensures var k := Value(Flatten(m)); k < |AllPossibleActions(n)| && AllPossibleActions(n)[k] == m
  {
    ReshapeFlatten(m, n, n);
    ProductHasEvery(Flatten(m));
  }

  /** The n x n matrix with `b` everywhere. */
  function Uniform(n: nat, b: bool): (m: Action)
    ensures Wildfire.IsSquare(m, n)
  {
    seq(n, i => seq(n, j => b))
  }

  /** The first action places no resources; the last places resources everywhere. */
  lemma ActionsEnds(n: nat)
    ensures AllPossibleActions(n)[0] == Uniform(n, false)
    ensures AllPossibleActions(n)[Pow2(n * n) - 1] == Uniform(n, true)
  {
    var none, every := Uniform(n, false), Uniform(n, true);
    FlattenConst(none, n, n, false);
    FlattenConst(every, n, n, true);
    AllFalseValue(Flatten(none));
    AllTrueValue(Flatten(every));
    ActionsComplete(n, none);
    ActionsComplete(n, every);
  }

  lemma {:induction false} FlattenConst(m: Action, n: nat, rows: nat, b: bool)
    requires |m| == rows && forall i :: 0 <= i < rows ==> |m[i]| == n
    requires forall i, j :: 0 <= i < rows && 0 <= j < n ==> m[i][j] == b
    ensures |Flatten(m)| == n * rows && forall k :: 0 <= k < |Flatten(m)| ==> Flatten(m)[k] == b
    decreases rows
  {
    if rows > 0 {
      FlattenConst(m[1..], n, rows - 1, b);
      assert Flatten(m) == m[0] + Flatten(m[1..]);
    }
  }

  lemma {:induction false} AllFalseValue(t: seq<bool>)
    requires forall k :: 0 <= k < |t| ==> !t[k]
    ensures Value(t) == 0
  {
    if t != [] {
      AllFalseValue(t[1..]);
    }
  }

  lemma {:induction false} AllTrueValue(t: seq<bool>)
    requires forall k :: 0 <= k < |t| ==> t[k]
    ensures Value(t) == Pow2(|t|) - 1
  {
    if t != [] {
      AllTrueValue(t[1..]);
    }
  }
}
