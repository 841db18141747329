/**
 Dense two-dimensional grids, the model of the Eigen `MatrixXd` buffers the
 map builder keeps. A grid is a sequence of rows; `g[i][j]` is the cell in
 row `i` and column `j`, as `m(i, j)` in Eigen.
 */
module Grid {

  type Matrix<T> = seq<seq<T>>

  /** `g` has exactly `rows` rows, each of exactly `cols` cells. */
  predicate HasShape<T>(g: Matrix<T>, rows: nat, cols: nat)
  {
    |g| == rows && forall i :: 0 <= i < rows ==> |g[i]| == cols
  }

  /** A `rows` x `cols` grid with every cell equal to `v` (Eigen's `Zero(rows, cols)` when `v` is zero). */
  function Fill<T>(rows: nat, cols: nat, v: T): (g: Matrix<T>)
    ensures HasShape(g, rows, cols)
    ensures forall i, j :: 0 <= i < rows && 0 <= j < cols ==> g[i][j] == v
  {
    seq(rows, i => seq(cols, j => v))
  }

  /** The grid `g` with the single cell `(i, j)` replaced by `v`. */
  function SetCell<T>(g: Matrix<T>, i: nat, j: nat, v: T): (r: Matrix<T>)
    requires i < |g| && j < |g[i]|
    ensures |r| == |g| && forall k :: 0 <= k < |g| ==> |r[k]| == |g[k]|
    ensures r[i][j] == v
    ensures forall k, l :: 0 <= k < |g| && 0 <= l < |g[k]| && (k, l) != (i, j) ==> r[k][l] == g[k][l]
  {
    g[i := g[i][j := v]]
  }

  /** The sum of a row of counts. */
  function RowTotal(s: seq<nat>): (t: nat)
    ensures forall j :: 0 <= j < |s| ==> s[j] <= t
  {
    if |s| == 0 then 0 else s[0] + RowTotal(s[1..])
  }

  /** The sum of all cells of a count grid (Eigen's `.sum()`). */
  function Total(g: Matrix<nat>): (t: nat)
    ensures forall i, j :: 0 <= i < |g| && 0 <= j < |g[i]| ==> g[i][j] <= t
  {
    if |g| == 0 then 0 else RowTotal(g[0]) + Total(g[1..])
  }

  lemma {:induction false} RowTotalZeroIff(s: seq<nat>)
    ensures RowTotal(s) == 0 <==> forall j :: 0 <= j < |s| ==> s[j] == 0
  {
    if |s| > 0 {
      RowTotalZeroIff(s[1..]);
      if RowTotal(s) == 0 {
        forall j | 0 <= j < |s| ensures s[j] == 0 {
          if j > 0 { assert s[j] == s[1..][j - 1]; }
        }
      }
    }
  }

  /** A grid of non-negative counts sums to zero exactly when every cell is zero. */
  lemma {:induction false} TotalZeroIff(g: Matrix<nat>)
    ensures Total(g) == 0 <==> forall i, j :: 0 <= i < |g| && 0 <= j < |g[i]| ==> g[i][j] == 0
  {
    if |g| > 0 {
      RowTotalZeroIff(g[0]);
      TotalZeroIff(g[1..]);
      if Total(g) == 0 {
        forall i, j | 0 <= i < |g| && 0 <= j < |g[i]| ensures g[i][j] == 0 {
          if i > 0 { assert g[i] == g[1..][i - 1]; }
        }
      }
    }
  }

  /** Replacing one count changes the row total by exactly the difference. */
  lemma {:induction false} RowTotalAfterSet(s: seq<nat>, j: nat, v: nat)
    requires j < |s|
    ensures RowTotal(s[j := v]) == RowTotal(s) - s[j] + v
  {
    if j == 0 {
      assert s[j := v][1..] == s[1..];
    } else {
      assert s[j := v][1..] == s[1..][j - 1 := v];
      RowTotalAfterSet(s[1..], j - 1, v);
    }
  }

  /** Replacing one count changes the grid total by exactly the difference. */
  lemma {:induction false} TotalAfterSet(g: Matrix<nat>, i: nat, j: nat, v: nat)
    requires i < |g| && j < |g[i]|
    ensures Total(SetCell(g, i, j, v)) == Total(g) - g[i][j] + v
  {
    if i == 0 {
      assert SetCell(g, i, j, v)[1..] == g[1..];
      RowTotalAfterSet(g[0], j, v);
    } else {
      assert SetCell(g, i, j, v)[1..] == SetCell(g[1..], i - 1, j, v);
      TotalAfterSet(g[1..], i - 1, j, v);
    }
  }
}
