/** Batch tensors (rows of feature values) and the finite sums the layer formulas are built from.
    Every `float` of the program is an exact `real` here. */
module Tensor {

  type Vector = seq<real>
  type Matrix = seq<seq<real>>

  /** `m` has exactly `rows` rows of exactly `cols` entries each. */
  predicate IsMatrix(m: Matrix, rows: nat, cols: nat) {
    |m| == rows && forall i :: 0 <= i < |m| ==> |m[i]| == cols
  }

  /** Every row of `m` has at least `cols` entries (indexing `m[i][j]` with `j < cols` is defined). */
  predicate RowsAtLeast(m: Matrix, cols: nat) {
    forall i :: 0 <= i < |m| ==> |m[i]| >= cols
  }

  /** `big` can be indexed wherever `small` can: at least as many rows, each at least as long. */
  predicate Covers(big: Matrix, small: Matrix) {
    |big| >= |small| && forall i :: 0 <= i < |small| ==> |big[i]| >= |small[i]|
  }

  /** The all-zero `rows` x `cols` matrix. */
  function Zeros(rows: nat, cols: nat): Matrix {
    seq(rows, _ => seq(cols, _ => 0.0))
  }

  /** Σ_{k < n} row[k] * w[k][j]: the dot product of `row` with column `j` of `w`. */
  function ColumnDot(row: Vector, w: Matrix, j: nat, n: nat): real
    requires n <= |row| && n <= |w|
    requires forall k :: 0 <= k < n ==> j < |w[k]|
  {
    if n == 0 then 0.0 else ColumnDot(row, w, j, n - 1) + row[n - 1] * w[n - 1][j]
  }

  /** Σ_{j < m} g[j] * w[k][j]: the dot product of `g` with row `k` of `w`. */
  function RowDot(g: Vector, w: Matrix, k: nat, m: nat): real
    requires m <= |g| && k < |w| && m <= |w[k]|
  {
    if m == 0 then 0.0 else RowDot(g, w, k, m - 1) + g[m - 1] * w[k][m - 1]
  }

  /** Σ_{i < n} g[i][j]: the sum of the first `n` entries of column `j`. */
  function ColumnSum(g: Matrix, j: nat, n: nat): real
    requires n <= |g|
    requires forall i :: 0 <= i < n ==> j < |g[i]|
  {
    if n == 0 then 0.0 else ColumnSum(g, j, n - 1) + g[n - 1][j]
  }

  /** Σ_{i < n} x[i][k] * g[i][j]: column `k` of `x` against column `j` of `g` over the first `n` rows. */
  function ColumnProduct(x: Matrix, g: Matrix, k: nat, j: nat, n: nat): real
    requires n <= |x| && n <= |g|
    requires forall i :: 0 <= i < n ==> k < |x[i]| && j < |g[i]|
  {
    if n == 0 then 0.0 else ColumnProduct(x, g, k, j, n - 1) + x[n - 1][k] * g[n - 1][j]
  }

  /** Σ_{j < n} v[j]. */
  function Sum(v: Vector, n: nat): real
    requires n <= |v|
  {
    if n == 0 then 0.0 else Sum(v, n - 1) + v[n - 1]
  }

  /** The index of the first largest entry among the first `n` (`std::max_element`'s scan: a later
      entry replaces the current one only when it is strictly greater). */
  function ArgMaxPrefix(v: Vector, n: nat): (k: nat)
    requires 0 < n <= |v|
    ensures k < n
    ensures forall j :: 0 <= j < n ==> v[j] <= v[k]
    ensures forall j :: 0 <= j < k ==> v[j] < v[k]
  {
    if n == 1 then 0
    else
      var k := ArgMaxPrefix(v, n - 1);
      if v[n - 1] > v[k] then n - 1 else k
  }

  /** The position `std::max_element` returns, counted from the start: the first largest entry,
      and 0 for an empty row (the end iterator of an empty range is its start). */
  function ArgMax(v: Vector): (k: nat)
    ensures |v| == 0 ==> k == 0
    ensures |v| > 0 ==> k < |v| && (forall j :: 0 <= j < |v| ==> v[j] <= v[k]) && (forall j :: 0 <= j < k ==> v[j] < v[k])
  {
    if |v| == 0 then 0 else ArgMaxPrefix(v, |v|)
  }

  /** The index of the first smallest entry among the first `n` (`std::min_element`'s scan). */
  function ArgMinPrefix(v: Vector, n: nat): (k: nat)
    requires 0 < n <= |v|
    ensures k < n
    ensures forall j :: 0 <= j < n ==> v[k] <= v[j]
    ensures forall j :: 0 <= j < k ==> v[k] < v[j]
  {
    if n == 1 then 0
    else
      var k := ArgMinPrefix(v, n - 1);
      if v[n - 1] < v[k] then n - 1 else k
  }

  /** A column sum over two stacked batches is the sum of their column sums. */
  lemma {:induction false} ColumnSumAppend(a: Matrix, b: Matrix, j: nat, n: nat)
    requires n <= |b|
    requires forall i :: 0 <= i < |a| ==> j < |a[i]|
    requires forall i :: 0 <= i < |b| ==> j < |b[i]|
    ensures ColumnSum(a + b, j, |a| + n) == ColumnSum(a, j, |a|) + ColumnSum(b, j, n)
  {
    if n == 0 {
      ColumnSumPrefix(a + b, a, j, |a|);
    } else {
      ColumnSumAppend(a, b, j, n - 1);
      assert (a + b)[|a| + n - 1] == b[n - 1];
    }
  }

  /** A column sum only looks at the rows it sums. */
  lemma {:induction false} ColumnSumPrefix(g: Matrix, h: Matrix, j: nat, n: nat)
    requires n <= |g| && n <= |h|
    requires forall i :: 0 <= i < n ==> g[i] == h[i] && j < |g[i]|
    ensures ColumnSum(g, j, n) == ColumnSum(h, j, n)
  {
    if n > 0 {
      ColumnSumPrefix(g, h, j, n - 1);
    }
  }

  /** A column product over two stacked batches is the sum of their column products. */
  lemma {:induction false} ColumnProductAppend(xa: Matrix, xb: Matrix, ga: Matrix, gb: Matrix, k: nat, j: nat, n: nat)
    requires |xa| == |ga| && n <= |xb| && n <= |gb|
    requires forall i :: 0 <= i < |xa| ==> k < |xa[i]| && j < |ga[i]|
    requires forall i :: 0 <= i < n ==> k < |xb[i]| && j < |gb[i]|
    ensures ColumnProduct(xa + xb, ga + gb, k, j, |xa| + n)
         == ColumnProduct(xa, ga, k, j, |xa|) + ColumnProduct(xb, gb, k, j, n)
  {
    if n == 0 {
      ColumnProductPrefix(xa + xb, ga + gb, xa, ga, k, j, |xa|);
    } else {
      ColumnProductAppend(xa, xb, ga, gb, k, j, n - 1);
      assert (xa + xb)[|xa| + n - 1] == xb[n - 1];
      assert (ga + gb)[|xa| + n - 1] == gb[n - 1];
    }
  }

  /** A column product only looks at the rows it sums. */
  lemma {:induction false} ColumnProductPrefix(x: Matrix, g: Matrix, y: Matrix, h: Matrix, k: nat, j: nat, n: nat)
    requires n <= |x| && n <= |g| && n <= |y| && n <= |h|
    requires forall i :: 0 <= i < n ==> x[i] == y[i] && g[i] == h[i] && k < |x[i]| && j < |g[i]|
    ensures ColumnProduct(x, g, k, j, n) == ColumnProduct(y, h, k, j, n)
  {
    if n > 0 {
      ColumnProductPrefix(x, g, y, h, k, j, n - 1);
    }
  }

  /** Two matrices of one shape with the same entries are equal. */
  lemma MatrixExtensional(a: Matrix, b: Matrix, rows: nat, cols: nat)
    requires IsMatrix(a, rows, cols) && IsMatrix(b, rows, cols)
    requires forall i, j :: 0 <= i < rows && 0 <= j < cols ==> a[i][j] == b[i][j]
    ensures a == b
  {
    forall i | 0 <= i < rows
      ensures a[i] == b[i]
    {
      assert forall j :: 0 <= j < cols ==> a[i][j] == b[i][j];
    }
  }

  /** A sequence whose two halves both equal `s` is `s + s`. */
  lemma Doubled<T>(d: seq<T>, s: seq<T>)
    requires |d| == |s| + |s|
    requires forall i :: 0 <= i < |s| ==> d[i] == s[i] && d[|s| + i] == s[i]
    ensures d == s + s
  {
    assert forall i :: 0 <= i < |d| ==> d[i] == (s + s)[i];
  }

  /** Stacking two pairs row-aligned keeps the bigger matrix covering the smaller. */
  lemma CoversAppend(ta: Matrix, pa: Matrix, tb: Matrix, pb: Matrix)
    requires |ta| == |pa| && Covers(ta, pa) && Covers(tb, pb)
    ensures Covers(ta + tb, pa + pb)
  {
    assert forall i :: 0 <= i < |pa| ==> (pa + pb)[i] == pa[i] && (ta + tb)[i] == ta[i];
    assert forall i :: 0 <= i < |pb| ==> (pa + pb)[|pa| + i] == pb[i] && (ta + tb)[|pa| + i] == tb[i];
  }
}
