/** The two layer kinds: a fully connected (Dense) layer and a pointwise activation layer.
    Each is a class whose fields are the program's; `LayerState` is the value those fields
    hold, and the functions over it are what the network's contracts are stated with. */
module Layers {
  import opened Tensor
  import opened Errors
  import opened Optimizer
  import opened ModelFile

  const ReluKind: string := "relu"
  const SoftmaxKind: string := "softmax"

  // ---------------------------------------------------------------------------------------------
  // The formulas

  /** out[i][j] = b[j] + Σ_k x[i][k] * w[k][j]: one row per input row, one column per bias. */
  function Affine(x: Matrix, w: Matrix, b: Vector): (out: Matrix)
    requires IsMatrix(w, |w|, |b|) && RowsAtLeast(x, |w|)
    ensures IsMatrix(out, |x|, |b|)
  {
    seq(|x|, i requires 0 <= i < |x| =>
      seq(|b|, j requires 0 <= j < |b| => b[j] + ColumnDot(x[i], w, j, |w|)))
  }

  /** What the loops of the Dense backward pass index: the first `|g|` rows of the cached input
      (at least `|w|` wide), the gradient rows (at least `m` wide) and the weights. */
  predicate BackwardShapes(x: Matrix, g: Matrix, w: Matrix, m: nat) {
    |x| >= |g| && RowsAtLeast(w, m) && forall i :: 0 <= i < |g| ==> |x[i]| >= |w| && |g[i]| >= m
  }

  /** weight_gradient[k][j] = (Σ_i x[i][k] * g[i][j]) / batch. */
  function WeightGradients(x: Matrix, g: Matrix, w: Matrix, m: nat): (wg: Matrix)
    requires BackwardShapes(x, g, w, m) && |g| > 0
    ensures IsMatrix(wg, |w|, m)
  {
    seq(|w|, k requires 0 <= k < |w| =>
      seq(m, j requires 0 <= j < m => ColumnProduct(x, g, k, j, |g|) / (|g| as real)))
  }

  /** bias_gradient[j] = (Σ_i g[i][j]) / batch. */
  function BiasGradients(g: Matrix, m: nat): (bg: Vector)
    requires RowsAtLeast(g, m) && |g| > 0
    ensures |bg| == m
  {
    seq(m, j requires 0 <= j < m => ColumnSum(g, j, |g|) / (|g| as real))
  }

  /** input_gradient[i][k] = Σ_j g[i][j] * w[k][j], per example: not divided by the batch size. */
  function InputGradients(g: Matrix, w: Matrix, m: nat): (ig: Matrix)
    requires RowsAtLeast(g, m) && RowsAtLeast(w, m)
    ensures IsMatrix(ig, |g|, |w|)
  {
    seq(|g|, i requires 0 <= i < |g| =>
      seq(|w|, k requires 0 <= k < |w| => RowDot(g[i], w, k, m)))
  }

  /** std::max(0, v): `v` when 0 < v, else 0. */
  function ReluValue(v: real): (r: real)
    ensures r >= 0.0 && (v > 0.0 ==> r == v) && (v <= 0.0 ==> r == 0.0)
  {
    if 0.0 < v then v else 0.0
  }

  /** ReLU, entry by entry, in the shape of its input. */
  function Relu(x: Matrix): (y: Matrix)
    ensures |y| == |x| && forall i :: 0 <= i < |x| ==> |y[i]| == |x[i]|
  {
    seq(|x|, i requires 0 <= i < |x| => seq(|x[i]|, j requires 0 <= j < |x[i]| => ReluValue(x[i][j])))
  }

  /** The ReLU backward pass: every gradient entry over a cached input entry is multiplied by
      1 where that input is positive and by 0 where it is not; entries beyond the cache are kept. */
  function ReluMask(inputs: Matrix, g: Matrix): (r: Matrix)
    requires Covers(g, inputs)
    ensures |r| == |g| && forall i :: 0 <= i < |g| ==> |r[i]| == |g[i]|
    ensures forall i, j :: 0 <= i < |inputs| && 0 <= j < |inputs[i]| ==>
      r[i][j] == if inputs[i][j] > 0.0 then g[i][j] else 0.0
    ensures forall i, j :: 0 <= i < |g| && 0 <= j < |g[i]| && !(i < |inputs| && j < |inputs[i]|) ==>
      r[i][j] == g[i][j]
  {
    seq(|g|, i requires 0 <= i < |g| =>
      seq(|g[i]|, j requires 0 <= j < |g[i]| =>
        if i < |inputs| && j < |inputs[i]| then g[i][j] * (if inputs[i][j] > 0.0 then 1.0 else 0.0)
        else g[i][j]))
  }

  /** The exponential, as the real function it stands for is: positive everywhere. */
  ghost predicate PositiveExp(exp: real -> real) {
    forall t :: exp(t) > 0.0
  }

  predicate NonEmptyRows(x: Matrix) {
    forall i :: 0 <= i < |x| ==> |x[i]| > 0
  }

  /** Σ_{j < n} exp(row[j] - shift). */
  function SumExp(row: Vector, shift: real, exp: real -> real, n: nat): (s: real)
    requires n <= |row|
    ensures PositiveExp(exp) && n > 0 ==> s > 0.0
  {
    if n == 0 then 0.0 else SumExp(row, shift, exp, n - 1) + exp(row[n - 1] - shift)
  }

  /** The row's largest entry (the one std::max_element finds). */
  function RowMax(row: Vector): (mx: real)
    requires |row| > 0
    ensures forall j :: 0 <= j < |row| ==> row[j] <= mx
  {
    row[ArgMax(row)]
  }

  /** Softmax of one row, shifted by the row maximum before exponentiating. */
  function SoftmaxRow(row: Vector, exp: real -> real): (r: Vector)
    requires |row| > 0 && PositiveExp(exp)
    ensures |r| == |row| && forall j :: 0 <= j < |row| ==> r[j] > 0.0
  {
    var mx := RowMax(row);
    var total := SumExp(row, mx, exp, |row|);
    seq(|row|, j requires 0 <= j < |row| => exp(row[j] - mx) / total)
  }

  function Softmax(x: Matrix, exp: real -> real): (y: Matrix)
    requires NonEmptyRows(x) && PositiveExp(exp)
    ensures |y| == |x| && forall i :: 0 <= i < |x| ==> |y[i]| == |x[i]|
  {
    seq(|x|, i requires 0 <= i < |x| => SoftmaxRow(x[i], exp))
  }

  /** What an activation layer's forward pass returns: ReLU, softmax, or the invalid-argument error. */
  function ActivationOutput(kind: string, x: Matrix, exp: real -> real): (r: Result<Matrix>)
    requires kind == SoftmaxKind ==> NonEmptyRows(x)
    requires PositiveExp(exp)
    ensures r.Err? <==> kind != ReluKind && kind != SoftmaxKind
  {
    if kind == ReluKind then Ok(Relu(x))
    else if kind == SoftmaxKind then Ok(Softmax(x, exp))
    else Err(InvalidArgument("Unsupported activation type: " + kind))
  }

  /** What an activation layer's backward pass returns: the masked gradient for ReLU, the gradient
      itself for softmax (the loss already supplies the combined gradient), or the error. */
  function ActivationGradient(kind: string, inputs: Matrix, g: Matrix): (r: Result<Matrix>)
    requires kind == ReluKind ==> Covers(g, inputs)
    ensures kind == SoftmaxKind ==> r == Ok(g)
    ensures r.Err? <==> kind != ReluKind && kind != SoftmaxKind
  {
    if kind == ReluKind then Ok(ReluMask(inputs, g))
    else if kind == SoftmaxKind then Ok(g)
    else Err(InvalidArgument("Unsupported activation type: " + kind))
  }

  // ---------------------------------------------------------------------------------------------
  // Layer states: the values of the fields of each class

  datatype LayerState =
    | DenseState(weights: Matrix, biases: Vector, inputs: Matrix, weightGradients: Matrix, biasGradients: Vector)
    | ActivationState(activationType: string, inputs: Matrix)

  /** A Dense layer's weights have one row per input and one column per bias. */
  predicate Shaped(s: LayerState) {
    s.DenseState? ==> IsMatrix(s.weights, |s.weights|, |s.biases|)
  }

  /** The inputs a layer's forward pass is defined on. */
  predicate CanForward(s: LayerState, x: Matrix) {
    Shaped(s) &&
    match s
    case DenseState(w, _, _, _, _) => RowsAtLeast(x, |w|)
    case ActivationState(kind, _) => kind == SoftmaxKind ==> NonEmptyRows(x)
  }

  /** Forward: the layer caches `x` and returns its output (or, for an unknown kind, the error). */
  function LayerForward(s: LayerState, x: Matrix, exp: real -> real): (r: (LayerState, Result<Matrix>))
    requires CanForward(s, x) && PositiveExp(exp)
  {
    match s
    case DenseState(w, b, _, wg, bg) => (DenseState(w, b, x, wg, bg), Ok(Affine(x, w, b)))
    case ActivationState(kind, _) => (ActivationState(kind, x), ActivationOutput(kind, x, exp))
  }

  /** The gradients a layer's backward pass is defined on: a non-empty batch matching the cache. */
  predicate CanBackward(s: LayerState, g: Matrix) {
    Shaped(s) &&
    match s
    case DenseState(w, b, x, _, _) => |w| > 0 && |g| > 0 && BackwardShapes(x, g, w, |b|)
    case ActivationState(kind, x) => kind == ReluKind ==> Covers(g, x)
  }

  /** Backward: a Dense layer records its batch-averaged gradients; an activation layer keeps its state. */
  function LayerBackward(s: LayerState, g: Matrix): (r: (LayerState, Result<Matrix>))
    requires CanBackward(s, g)
  {
    match s
    case DenseState(w, b, x, _, _) =>
      (DenseState(w, b, x, WeightGradients(x, g, w, |b|), BiasGradients(g, |b|)), Ok(InputGradients(g, w, |b|)))
    case ActivationState(kind, x) => (s, ActivationGradient(kind, x, g))
  }

  /** Update needs gradients covering the parameters (a previous backward pass). */
  predicate CanUpdate(s: LayerState) {
    Shaped(s) && (s.DenseState? ==> Covers(s.weightGradients, s.weights) && |s.biasGradients| >= |s.biases|)
  }

  function LayerUpdate(s: LayerState, lr: real): (r: LayerState)
    requires CanUpdate(s)
  {
    match s
    case DenseState(w, b, x, wg, bg) => DenseState(StepMatrix(lr, w, wg), StepVector(lr, b, bg), x, wg, bg)
    case ActivationState(_, _) => s
  }

  /** Save reads the width of the first weight row, so a Dense layer needs one. */
  predicate CanSave(s: LayerState) {
    s.DenseState? ==> |s.weights| > 0
  }

  /** The tokens a layer writes: its record for Dense, nothing for an activation layer. */
  function LayerRecord(s: LayerState): seq<Token>
    requires CanSave(s)
  {
    if s.DenseState? then DenseRecord(s.weights, s.biases) else []
  }

  /** Load into a Dense layer needs the source to start with a record of the layer's own shape. */
  predicate CanLoad(s: LayerState, source: seq<Token>) {
    Shaped(s) && (s.DenseState? ==> ReadRecord(source, |s.weights|, |s.biases|).Some?)
  }

  /** Load: a Dense layer takes its weights and biases from its record; an activation layer reads nothing. */
  function LayerLoad(s: LayerState, source: seq<Token>): (r: (LayerState, seq<Token>))
    requires CanLoad(s, source)
  {
    match s
    case DenseState(w, b, x, wg, bg) =>
      var (w', b', rest) := ReadRecord(source, |w|, |b|).value;
      (DenseState(w', b', x, wg, bg), rest)
    case ActivationState(_, _) => (s, source)
  }

  // ---------------------------------------------------------------------------------------------
  // Loops of the forward and backward passes

  /** The nested loops of the Dense forward pass. */
  method AffineLoop(x: Matrix, w: Matrix, b: Vector) returns (outputs: Matrix)
    requires IsMatrix(w, |w|, |b|) && RowsAtLeast(x, |w|)
    ensures outputs == Affine(x, w, b)
  {
    outputs := Zeros(|x|, |b|);
    var i := 0;
    while i < |x|
      invariant 0 <= i <= |x| && IsMatrix(outputs, |x|, |b|)
      invariant forall r, c :: 0 <= r < i && 0 <= c < |b| ==> outputs[r][c] == b[c] + ColumnDot(x[r], w, c, |w|)
    {
      var j := 0;
      while j < |b|
        invariant 0 <= j <= |b| && IsMatrix(outputs, |x|, |b|)
        invariant forall r, c :: 0 <= r < i && 0 <= c < |b| ==> outputs[r][c] == b[c] + ColumnDot(x[r], w, c, |w|)
        invariant forall c :: 0 <= c < j ==> outputs[i][c] == b[c] + ColumnDot(x[i], w, c, |w|)
      {
        var cell := b[j];
        var k := 0;
        while k < |w|
          invariant 0 <= k <= |w| && cell == b[j] + ColumnDot(x[i], w, j, k)
        {
          cell := cell + x[i][k] * w[k][j];
          k := k + 1;
        }
        outputs := outputs[i := outputs[i][j := cell]];
        j := j + 1;
      }
      i := i + 1;
    }
    ghost var spec := Affine(x, w, b);
    assert forall r :: 0 <= r < |x| ==> outputs[r] == spec[r];
  }

  /** The innermost backward loop (over `k`) for one example `xi`, its gradient entry `gij` in
      column `j`: adds `xi[k] * gij` to weight gradient `[k][j]` and `gij * w[k][j]` to input gradient `k`. */
  method AccumulateColumn(xi: Vector, gij: real, w: Matrix, j: nat, wg: Matrix, igRow: Vector)
    returns (wg': Matrix, igRow': Vector)
    requires |xi| >= |w| && |wg| == |w| && |igRow| == |w|
    requires forall k :: 0 <= k < |w| ==> j < |w[k]| && j < |wg[k]|
    ensures |wg'| == |wg| && forall k :: 0 <= k < |wg| ==> |wg'[k]| == |wg[k]|
    ensures forall k :: 0 <= k < |wg| ==> wg'[k][j] == wg[k][j] + xi[k] * gij
    ensures forall k, c :: 0 <= k < |wg| && 0 <= c < |wg[k]| && c != j ==> wg'[k][c] == wg[k][c]
    ensures |igRow'| == |igRow| && forall k :: 0 <= k < |w| ==> igRow'[k] == igRow[k] + gij * w[k][j]
  {
    wg', igRow' := wg, igRow;
    var k := 0;
    while k < |w|
      invariant 0 <= k <= |w| && |wg'| == |wg| && |igRow'| == |igRow|
      invariant forall kk :: 0 <= kk < |wg| ==> |wg'[kk]| == |wg[kk]|
      invariant forall kk :: 0 <= kk < k ==> wg'[kk][j] == wg[kk][j] + xi[kk] * gij
      invariant forall kk :: k <= kk < |wg| ==> wg'[kk] == wg[kk]
      invariant forall kk, c :: 0 <= kk < k && 0 <= c < |wg[kk]| && c != j ==> wg'[kk][c] == wg[kk][c]
      invariant forall kk :: 0 <= kk < k ==> igRow'[kk] == igRow[kk] + gij * w[kk][j]
      invariant forall kk :: k <= kk < |w| ==> igRow'[kk] == igRow[kk]
    {
      wg' := wg'[k := wg'[k][j := wg'[k][j] + xi[k] * gij]];
      igRow' := igRow'[k := igRow'[k] + gij * w[k][j]];
      k := k + 1;
    }
  }

  /** Adding column `j` of the outer product to a weight gradient whose columns before `j`
      already hold it extends that to the columns up to `j`. */
  lemma WeightColumnStep(wg: Matrix, before: Matrix, after: Matrix, xi: Vector, gi: Vector, m: nat, j: nat)
    requires IsMatrix(wg, |wg|, m) && IsMatrix(before, |wg|, m) && IsMatrix(after, |wg|, m)
    requires |xi| >= |wg| && j < m <= |gi|
    requires forall k, c :: 0 <= k < |wg| && 0 <= c < j ==> before[k][c] == wg[k][c] + xi[k] * gi[c]
    requires forall k, c :: 0 <= k < |wg| && j <= c < m ==> before[k][c] == wg[k][c]
    requires forall k :: 0 <= k < |wg| ==> after[k][j] == before[k][j] + xi[k] * gi[j]
    requires forall k, c :: 0 <= k < |wg| && 0 <= c < m && c != j ==> after[k][c] == before[k][c]
    ensures forall k, c :: 0 <= k < |wg| && 0 <= c <= j ==> after[k][c] == wg[k][c] + xi[k] * gi[c]
    ensures forall k, c :: 0 <= k < |wg| && j < c < m ==> after[k][c] == wg[k][c]
  {
    forall k, c | 0 <= k < |wg| && 0 <= c <= j
      ensures after[k][c] == wg[k][c] + xi[k] * gi[c]
    {
      if c == j {
        assert before[k][j] == wg[k][j];
      } else {
        assert after[k][c] == before[k][c];
      }
    }
  }

  /** Adding entry `j` of the gradient row to a bias gradient whose entries before `j` already
      hold it extends that to the entries up to `j`. */
  lemma BiasStep(bg: Vector, before: Vector, after: Vector, gi: Vector, j: nat)
    requires |before| == |bg| && j < |bg| <= |gi|
    requires forall c :: 0 <= c < j ==> before[c] == bg[c] + gi[c]
    requires forall c :: j <= c < |bg| ==> before[c] == bg[c]
    requires after == before[j := before[j] + gi[j]]
    ensures |after| == |bg|
    ensures forall c :: 0 <= c <= j ==> after[c] == bg[c] + gi[c]
    ensures forall c :: j < c < |bg| ==> after[c] == bg[c]
  {
  }

  /** Adding the `j`-th term to every partial input-gradient sum extends it by one term. */
  lemma RowDotStep(gi: Vector, w: Matrix, j: nat, before: Vector, after: Vector)
    requires |before| == |w| && |after| == |w| && j < |gi| && RowsAtLeast(w, j + 1)
    requires forall k :: 0 <= k < |w| ==> before[k] == RowDot(gi, w, k, j)
    requires forall k :: 0 <= k < |w| ==> after[k] == before[k] + gi[j] * w[k][j]
    ensures forall k :: 0 <= k < |w| ==> after[k] == RowDot(gi, w, k, j + 1)
  {
  }

  /** The backward loops over `j` and `k` for one example `xi` with gradient row `gi`: adds its
      outer product to the weight gradient and its row to the bias gradient, and computes its
      input gradient row. */
  method AccumulateExample(xi: Vector, gi: Vector, w: Matrix, m: nat, wg: Matrix, bg: Vector)
    returns (wg': Matrix, bg': Vector, igRow: Vector)
    requires |xi| >= |w| && |gi| >= m && RowsAtLeast(w, m) && IsMatrix(wg, |w|, m) && |bg| == m
    ensures IsMatrix(wg', |w|, m) && |bg'| == m && |igRow| == |w|
    ensures forall k, c :: 0 <= k < |w| && 0 <= c < m ==> wg'[k][c] == wg[k][c] + xi[k] * gi[c]
    ensures forall c :: 0 <= c < m ==> bg'[c] == bg[c] + gi[c]
    ensures forall k :: 0 <= k < |w| ==> igRow[k] == RowDot(gi, w, k, m)
  {
    wg', bg' := wg, bg;
    igRow := seq(|w|, _ => 0.0);
    var j := 0;
    while j < m
      invariant 0 <= j <= m && IsMatrix(wg', |w|, m) && |bg'| == m && |igRow| == |w|
      invariant forall k, c :: 0 <= k < |w| && 0 <= c < j ==> wg'[k][c] == wg[k][c] + xi[k] * gi[c]
      invariant forall k, c :: 0 <= k < |w| && j <= c < m ==> wg'[k][c] == wg[k][c]
      invariant forall c :: 0 <= c < j ==> bg'[c] == bg[c] + gi[c]
      invariant forall c :: j <= c < m ==> bg'[c] == bg[c]
      invariant forall k :: 0 <= k < |w| ==> igRow[k] == RowDot(gi, w, k, j)
    {
      ghost var bgBefore, before, igBefore := bg', wg', igRow;
      bg' := bg'[j := bg'[j] + gi[j]];
      BiasStep(bg, bgBefore, bg', gi, j);
      wg', igRow := AccumulateColumn(xi, gi[j], w, j, wg', igRow);
      WeightColumnStep(wg, before, wg', xi, gi, m, j);
      RowDotStep(gi, w, j, igBefore, igRow);
      j := j + 1;
    }
  }

  /** The accumulating loops of the Dense backward pass, before the division by the batch size. */
  method AccumulateGradients(x: Matrix, g: Matrix, w: Matrix, m: nat) returns (wg: Matrix, bg: Vector, ig: Matrix)
    requires BackwardShapes(x, g, w, m)
    ensures IsMatrix(wg, |w|, m) && |bg| == m
    ensures forall k, j :: 0 <= k < |w| && 0 <= j < m ==> wg[k][j] == ColumnProduct(x, g, k, j, |g|)
    ensures forall j :: 0 <= j < m ==> bg[j] == ColumnSum(g, j, |g|)
    ensures ig == InputGradients(g, w, m)
  {
    wg := Zeros(|w|, m);
    bg := seq(m, _ => 0.0);
    ig := Zeros(|g|, |w|);
    ghost var spec := InputGradients(g, w, m);
    var i := 0;
    while i < |g|
      invariant 0 <= i <= |g|
      invariant IsMatrix(wg, |w|, m) && |bg| == m && |ig| == |g|
      invariant forall k, c :: 0 <= k < |w| && 0 <= c < m ==> wg[k][c] == ColumnProduct(x, g, k, c, i)
      invariant forall c :: 0 <= c < m ==> bg[c] == ColumnSum(g, c, i)
      invariant forall r :: 0 <= r < i ==> ig[r] == spec[r]
    {
      var row;
      wg, bg, row := AccumulateExample(x[i], g[i], w, m, wg, bg);
      assert row == spec[i];
      ig := ig[i := row];
      i := i + 1;
    }
    assert ig == spec;
  }

  /** Divides every entry of a matrix by `d`, in place in the program. */
  method DivideMatrix(a: Matrix, d: real) returns (r: Matrix)
    requires d != 0.0
    ensures |r| == |a| && forall k :: 0 <= k < |a| ==> |r[k]| == |a[k]|
    ensures forall k, j :: 0 <= k < |a| && 0 <= j < |a[k]| ==> r[k][j] == a[k][j] / d
  {
    r := a;
    var k := 0;
    while k < |r|
      invariant 0 <= k <= |a| && |r| == |a|
      invariant forall kk :: 0 <= kk < |a| ==> |r[kk]| == |a[kk]|
      invariant forall kk, j :: 0 <= kk < k && 0 <= j < |a[kk]| ==> r[kk][j] == a[kk][j] / d
      invariant forall kk :: k <= kk < |a| ==> r[kk] == a[kk]
    {
      var j := 0;
      while j < |r[k]|
        invariant 0 <= j <= |a[k]| && |r| == |a|
        invariant forall kk :: 0 <= kk < |a| ==> |r[kk]| == |a[kk]|
        invariant forall kk, c :: 0 <= kk < k && 0 <= c < |a[kk]| ==> r[kk][c] == a[kk][c] / d
        invariant forall c :: 0 <= c < j ==> r[k][c] == a[k][c] / d
        invariant forall c :: j <= c < |a[k]| ==> r[k][c] == a[k][c]
        invariant forall kk :: k < kk < |a| ==> r[kk] == a[kk]
      {
        r := r[k := r[k][j := r[k][j] / d]];
        j := j + 1;
      }
      k := k + 1;
    }
  }

  /** Divides every entry of a vector by `d`, in place in the program. */
  method DivideVector(a: Vector, d: real) returns (r: Vector)
    requires d != 0.0
    ensures |r| == |a| && forall j :: 0 <= j < |a| ==> r[j] == a[j] / d
  {
    r := a;
    var j := 0;
    while j < |r|
      invariant 0 <= j <= |a| && |r| == |a|
      invariant forall c :: 0 <= c < j ==> r[c] == a[c] / d
      invariant forall c :: j <= c < |a| ==> r[c] == a[c]
    {
      r := r[j := r[j] / d];
      j := j + 1;
    }
  }

  /** The ReLU forward loops over a copy of the input. */
  method ReluLoop(x: Matrix) returns (outputs: Matrix)
    ensures outputs == Relu(x)
  {
    outputs := x;
    var i := 0;
    while i < |outputs|
      invariant 0 <= i <= |x| && |outputs| == |x|
      invariant forall r :: 0 <= r < |x| ==> |outputs[r]| == |x[r]|
      invariant forall r, c :: 0 <= r < i && 0 <= c < |x[r]| ==> outputs[r][c] == ReluValue(x[r][c])
      invariant forall r :: i <= r < |x| ==> outputs[r] == x[r]
    {
      var j := 0;
      while j < |outputs[i]|
        invariant 0 <= j <= |x[i]| && |outputs| == |x|
        invariant forall r :: 0 <= r < |x| ==> |outputs[r]| == |x[r]|
        invariant forall r, c :: 0 <= r < i && 0 <= c < |x[r]| ==> outputs[r][c] == ReluValue(x[r][c])
        invariant forall c :: 0 <= c < j ==> outputs[i][c] == ReluValue(x[i][c])
        invariant forall c :: j <= c < |x[i]| ==> outputs[i][c] == x[i][c]
        invariant forall r :: i < r < |x| ==> outputs[r] == x[r]
      {
        outputs := outputs[i := outputs[i][j := if 0.0 < outputs[i][j] then outputs[i][j] else 0.0]];
        j := j + 1;
      }
      i := i + 1;
    }
    ghost var spec := Relu(x);
    assert forall r :: 0 <= r < |x| ==> outputs[r] == spec[r];
  }

  /** The softmax forward loops for one row: sum the shifted exponentials, then divide. */
  method SoftmaxRowLoop(row: Vector, exp: real -> real) returns (out: Vector)
    requires |row| > 0 && PositiveExp(exp)
    ensures out == SoftmaxRow(row, exp)
  {
    var maxVal := RowMax(row);
    var sumExp := 0.0;
    var j := 0;
    while j < |row|
      invariant 0 <= j <= |row| && sumExp == SumExp(row, maxVal, exp, j)
    {
      sumExp := sumExp + exp(row[j] - maxVal);
      j := j + 1;
    }
    out := row;
    j := 0;
    while j < |out|
      invariant 0 <= j <= |row| && |out| == |row|
      invariant forall c :: 0 <= c < j ==> out[c] == exp(row[c] - maxVal) / sumExp
      invariant forall c :: j <= c < |row| ==> out[c] == row[c]
    {
      out := out[j := exp(out[j] - maxVal) / sumExp];
      j := j + 1;
    }
  }

  /** The softmax forward loop over the rows of a copy of the input. */
  method SoftmaxLoop(x: Matrix, exp: real -> real) returns (outputs: Matrix)
    requires NonEmptyRows(x) && PositiveExp(exp)
    ensures outputs == Softmax(x, exp)
  {
    outputs := x;
    var i := 0;
    while i < |outputs|
      invariant 0 <= i <= |x| && |outputs| == |x|
      invariant forall r :: 0 <= r < i ==> outputs[r] == SoftmaxRow(x[r], exp)
      invariant forall r :: i <= r < |x| ==> outputs[r] == x[r]
    {
      var row := SoftmaxRowLoop(outputs[i], exp);
      outputs := outputs[i := row];
      i := i + 1;
    }
  }

  /** The ReLU backward loops over the cached input, on a copy of the gradient. */
  method ReluMaskLoop(inputs: Matrix, g: Matrix) returns (r: Matrix)
    requires Covers(g, inputs)
    ensures r == ReluMask(inputs, g)
  {
    r := g;
    var i := 0;
    while i < |inputs|
      invariant 0 <= i <= |inputs| && |r| == |g|
      invariant forall a :: 0 <= a < |g| ==> |r[a]| == |g[a]|
      invariant forall a :: 0 <= a < |g| ==> r[a] == ReluMask(inputs, g)[a] || i <= a
      invariant forall a :: i <= a < |g| ==> r[a] == g[a]
    {
      var j := 0;
      while j < |inputs[i]|
        invariant 0 <= j <= |inputs[i]| && |r| == |g|
        invariant forall a :: 0 <= a < |g| ==> |r[a]| == |g[a]|
        invariant forall a :: 0 <= a < i ==> r[a] == ReluMask(inputs, g)[a]
        invariant forall c :: 0 <= c < j ==> r[i][c] == g[i][c] * (if inputs[i][c] > 0.0 then 1.0 else 0.0)
        invariant forall c :: j <= c < |g[i]| ==> r[i][c] == g[i][c]
        invariant forall a :: i < a < |g| ==> r[a] == g[a]
      {
        r := r[i := r[i][j := r[i][j] * (if inputs[i][j] > 0.0 then 1.0 else 0.0)]];
        j := j + 1;
      }
      ghost var spec := ReluMask(inputs, g);
      assert r[i] == spec[i];
      i := i + 1;
    }
    ghost var spec := ReluMask(inputs, g);
    assert forall a :: 0 <= a < |g| ==> r[a] == spec[a];
  }

  // ---------------------------------------------------------------------------------------------
  // The classes

  class DenseLayer {
    var weights: Matrix
    var biases: Vector
    /** The batch of the last forward pass, kept for the backward pass. */
    var inputs: Matrix
    var weightGradients: Matrix
    var biasGradients: Vector

    /** One weight row per input, one column per output, one bias per output. */
    ghost predicate Valid()
      reads this
    {
      IsMatrix(weights, |weights|, |biases|)
    }

    ghost function State(): LayerState
      reads this
    {
      DenseState(weights, biases, inputs, weightGradients, biasGradients)
    }

    /** `initialWeights` stands for the uniform draws from [-0.1, 0.1]; the biases start at zero. */
    constructor (inputSize: nat, outputSize: nat, initialWeights: Matrix)
      requires IsMatrix(initialWeights, inputSize, outputSize)
      requires forall k, j :: 0 <= k < inputSize && 0 <= j < outputSize ==> -0.1 <= initialWeights[k][j] <= 0.1
      ensures Valid()
      ensures weights == initialWeights && biases == seq(outputSize, _ => 0.0)
      ensures inputs == [] && weightGradients == [] && biasGradients == []
    {
      weights := initialWeights;
      biases := seq(outputSize, _ => 0.0);
      inputs := [];
      weightGradients := [];
      biasGradients := [];
    }

    /** Caches the batch and returns `b[j] + Σ_k x[i][k] * w[k][j]` for every row and output. */
    method Forward(x: Matrix) returns (outputs: Matrix)
      requires Valid() && RowsAtLeast(x, |weights|)
      modifies this
      ensures weights == old(weights) && biases == old(biases)
      ensures Valid() && inputs == x && outputs == Affine(x, weights, biases)
      ensures weightGradients == old(weightGradients) && biasGradients == old(biasGradients)
    {
      inputs := x;
      outputs := AffineLoop(x, weights, biases);
    }

    /** Records the batch-averaged weight and bias gradients and returns the input gradient. */
    method Backward(gradient: Matrix) returns (inputGradients: Matrix)
      requires Valid() && |weights| > 0 && |gradient| > 0 && BackwardShapes(inputs, gradient, weights, |biases|)
      modifies this
      ensures Valid()
      ensures weights == old(weights) && biases == old(biases) && inputs == old(inputs)
      ensures weightGradients == WeightGradients(inputs, gradient, weights, |biases|)
      ensures biasGradients == BiasGradients(gradient, |biases|)
      ensures inputGradients == InputGradients(gradient, weights, |biases|)
    {
      var batchSize := |gradient|;
      var outputSize := |weights[0]|;
      var wg, bg, ig := AccumulateGradients(inputs, gradient, weights, outputSize);
      wg := DivideMatrix(wg, batchSize as real);
      bg := DivideVector(bg, batchSize as real);
      weightGradients := wg;
      biasGradients := bg;
      inputGradients := ig;
      ghost var specW := WeightGradients(inputs, gradient, weights, |biases|);
      assert forall k :: 0 <= k < |weights| ==> weightGradients[k] == specW[k];
    }

    /** Applies the optimizer to the weights with their gradients and to the biases with theirs. */
    method Update(optimizer: SGDOptimizer)
      requires Valid() && Covers(weightGradients, weights) && |biasGradients| >= |biases|
      modifies this
      ensures Valid()
      ensures weights == StepMatrix(optimizer.learningRate, old(weights), old(weightGradients))
      ensures biases == StepVector(optimizer.learningRate, old(biases), old(biasGradients))
      ensures inputs == old(inputs) && weightGradients == old(weightGradients) && biasGradients == old(biasGradients)
    {
      weights := optimizer.UpdateMatrix(weights, weightGradients);
      biases := optimizer.UpdateVector(biases, biasGradients);
    }

    /** Writes the sizes, the weight rows in order, then the biases. */
    method Save() returns (record: seq<Token>)
      requires |weights| > 0
      ensures record == DenseRecord(weights, biases)
    {
      var inputSize := |weights|;
      var outputSize := |weights[0]|;
      record := [SizeToken(inputSize), SizeToken(outputSize)];
      var k := 0;
      while k < |weights|
        invariant 0 <= k <= |weights|
        invariant record == [SizeToken(inputSize), SizeToken(outputSize)] + Flatten(weights[..k])
      {
        FlattenSnoc(weights, k);
        record := record + Floats(weights[k]);
        k := k + 1;
      }
      assert weights[..k] == weights;
      record := record + Floats(biases);
    }

    /** Reads the sizes, then one block per weight row, then the biases; returns the unread rest. */
    method Load(source: seq<Token>) returns (rest: seq<Token>)
      requires Valid() && ReadRecord(source, |weights|, |biases|).Some?
      modifies this
      ensures Valid()
      ensures (weights, biases, rest) == ReadRecord(source, old(|weights|), old(|biases|)).value
      ensures inputs == old(inputs) && weightGradients == old(weightGradients) && biasGradients == old(biasGradients)
    {
      var inputSize := source[0].size;
      var outputSize := source[1].size;
      // The record has the layer's own shape, so resizing to it changes nothing.
      var w := weights;
      ghost var parsed := ReadRows(source[2..], inputSize, outputSize).value;
      var pos := 2;
      var k := 0;
      while k < |w|
        invariant 0 <= k <= inputSize == |w| && 2 <= pos <= |source|
        invariant IsMatrix(w, inputSize, outputSize)
        invariant |parsed.0| == inputSize
        invariant ReadRows(source[pos..], inputSize - k, outputSize) == Some((parsed.0[k..], parsed.1))
        invariant forall kk :: 0 <= kk < k ==> w[kk] == parsed.0[kk]
      {
        var after := source[pos..];
        var block := ReadFloats(after, |w[k]|);
        var more := ReadRows(block.value.1, inputSize - k - 1, outputSize);
        assert [block.value.0] + more.value.0 == parsed.0[k..];
        assert block.value.0 == parsed.0[k];
        assert more.value.0 == parsed.0[k + 1..];
        w := w[k := block.value.0];
        assert after[|block.value.0|..] == source[pos + outputSize..];
        pos := pos + outputSize;
        k := k + 1;
      }
      assert w == parsed.0;
      var tail := ReadFloats(source[pos..], |biases|);
      weights := w;
      biases := tail.value.0;
      rest := tail.value.1;
    }
  }

  /** Building a Dense layer from the program's `int` sizes: a negative size makes the `resize`
      calls throw before any weight is drawn; otherwise the layer is the constructor's. */
  method NewDenseLayer(inputSize: int, outputSize: int, initialWeights: Matrix) returns (r: Result<DenseLayer>)
    requires inputSize >= 0 && outputSize >= 0 ==> IsMatrix(initialWeights, inputSize, outputSize)
    requires inputSize >= 0 && outputSize >= 0 ==>
      forall k, j :: 0 <= k < inputSize && 0 <= j < outputSize ==> -0.1 <= initialWeights[k][j] <= 0.1
    ensures r.Err? <==> inputSize < 0 || outputSize < 0
    ensures r.Err? ==> r.error == LengthError
    ensures r.Ok? ==> fresh(r.value) && r.value.Valid()
    ensures r.Ok? ==> r.value.weights == initialWeights && r.value.biases == seq(outputSize, _ => 0.0)
    ensures r.Ok? ==> r.value.inputs == [] && r.value.weightGradients == [] && r.value.biasGradients == []
  {
    if inputSize < 0 || outputSize < 0 {
      return Err(LengthError);
    }
    var layer := new DenseLayer(inputSize, outputSize, initialWeights);
    return Ok(layer);
  }

  class ActivationLayer {
    const activationType: string
    /** The batch of the last forward pass, kept for the backward pass. */
    var inputs: Matrix

    ghost function State(): LayerState
      reads this
    {
      ActivationState(activationType, inputs)
    }

    constructor (kind: string)
      ensures activationType == kind && inputs == []
    {
      activationType := kind;
      inputs := [];
    }

    /** Caches the batch, then applies ReLU or softmax; any other kind is an invalid argument. */
    method Forward(x: Matrix, exp: real -> real) returns (r: Result<Matrix>)
      requires activationType == SoftmaxKind ==> NonEmptyRows(x)
      requires PositiveExp(exp)
      modifies this
      ensures inputs == x && r == ActivationOutput(activationType, x, exp)
    {
      inputs := x;
      var outputs := x;
      if activationType == ReluKind {
        outputs := ReluLoop(outputs);
      } else if activationType == SoftmaxKind {
        outputs := SoftmaxLoop(outputs, exp);
      } else {
        return Err(InvalidArgument("Unsupported activation type: " + activationType));
      }
      r := Ok(outputs);
    }

    /** Masks the gradient for ReLU, passes it through for softmax; any other kind is an invalid argument. */
    method Backward(gradient: Matrix) returns (r: Result<Matrix>)
      requires activationType == ReluKind ==> Covers(gradient, inputs)
      ensures r == ActivationGradient(activationType, inputs, gradient)
    {
      var inputGradients := gradient;
      if activationType == ReluKind {
        inputGradients := ReluMaskLoop(inputs, inputGradients);
      } else if activationType == SoftmaxKind {
        // The loss already supplies the combined softmax and cross-entropy gradient.
      } else {
        return Err(InvalidArgument("Unsupported activation type: " + activationType));
      }
      r := Ok(inputGradients);
    }

    /** An activation layer has no parameters: update changes nothing. */
    method Update(optimizer: SGDOptimizer)
      ensures unchanged(this)
    {
    }

    /** Nothing is written. */
    method Save() returns (record: seq<Token>)
      ensures record == []
    {
      record := [];
    }

    /** Nothing is read. */
    method Load(source: seq<Token>) returns (rest: seq<Token>)
      ensures rest == source
    {
      rest := source;
    }
  }

  // ---------------------------------------------------------------------------------------------
  // A layer of the network: either class, with the calls dispatched to it

  datatype Layer = Dense(dense: DenseLayer) | Activation(activation: ActivationLayer)
  {
    /** The object whose fields the layer's calls change. */
    function Obj(): object {
      if Dense? then dense else activation
    }

    ghost function State(): LayerState
      reads Obj()
    {
      if Dense? then dense.State() else activation.State()
    }

    method Forward(x: Matrix, exp: real -> real) returns (r: Result<Matrix>)
      requires CanForward(State(), x) && PositiveExp(exp)
      modifies Obj()
      ensures (State(), r) == LayerForward(old(State()), x, exp)
    {
      if Dense? {
        var outputs := dense.Forward(x);
        r := Ok(outputs);
      } else {
        r := activation.Forward(x, exp);
      }
    }

    method Backward(gradient: Matrix) returns (r: Result<Matrix>)
      requires CanBackward(State(), gradient)
      modifies Obj()
      ensures (State(), r) == LayerBackward(old(State()), gradient)
    {
      if Dense? {
        var inputGradients := dense.Backward(gradient);
        r := Ok(inputGradients);
      } else {
        r := activation.Backward(gradient);
      }
    }

    method Update(optimizer: SGDOptimizer)
      requires CanUpdate(State())
      modifies Obj()
      ensures State() == LayerUpdate(old(State()), optimizer.learningRate)
    {
      if Dense? {
        dense.Update(optimizer);
      } else {
        activation.Update(optimizer);
      }
    }

    method Save() returns (record: seq<Token>)
      requires CanSave(State())
      ensures record == LayerRecord(State())
    {
      if Dense? {
        record := dense.Save();
      } else {
        record := activation.Save();
      }
    }

    method Load(source: seq<Token>) returns (rest: seq<Token>)
      requires CanLoad(State(), source)
      modifies Obj()
      ensures (State(), rest) == LayerLoad(old(State()), source)
    {
      if Dense? {
        rest := dense.Load(source);
      } else {
        rest := activation.Load(source);
      }
    }
  }

  // ---------------------------------------------------------------------------------------------
  // Properties

  /** A mean of a doubled total over a doubled count is the mean. */
  lemma DoubledMean(c: real, n: nat)
    requires n > 0
    ensures (c + c) / ((n + n) as real) == c / (n as real)
  {
    var d := n as real;
    assert (n + n) as real == d + d;
    assert (c + c) / (d + d) == c / d by {
      assert (c + c) == (c / d) * (d + d);
    }
  }

  /** Presenting every example twice leaves the averaged weight gradients unchanged. */
  lemma DuplicatedBatchWeightGradients(x: Matrix, g: Matrix, w: Matrix, m: nat)
    requires BackwardShapes(x, g, w, m) && |g| > 0 && |x| == |g|
    ensures BackwardShapes(x + x, g + g, w, m)
    ensures WeightGradients(x + x, g + g, w, m) == WeightGradients(x, g, w, m)
  {
    assert forall i :: 0 <= i < |g| ==> (x + x)[|g| + i] == x[i] && (g + g)[|g| + i] == g[i];
    var doubled := WeightGradients(x + x, g + g, w, m);
    var single := WeightGradients(x, g, w, m);
    forall k, j | 0 <= k < |w| && 0 <= j < m
      ensures doubled[k][j] == single[k][j]
    {
      DoubledColumnProduct(x, g, k, j);
    }
    MatrixExtensional(doubled, single, |w|, m);
  }

  /** The mean of a column product over a doubled batch is its mean over the batch. */
  lemma DoubledColumnProduct(x: Matrix, g: Matrix, k: nat, j: nat)
    requires |x| == |g| > 0 && forall i :: 0 <= i < |g| ==> k < |x[i]| && j < |g[i]|
    ensures forall i :: 0 <= i < |g| + |g| ==> k < |(x + x)[i]| && j < |(g + g)[i]|
    ensures ColumnProduct(x + x, g + g, k, j, |g| + |g|) / ((|g| + |g|) as real)
         == ColumnProduct(x, g, k, j, |g|) / (|g| as real)
  {
    assert forall i :: 0 <= i < |g| ==> (x + x)[|g| + i] == x[i] && (g + g)[|g| + i] == g[i];
    ColumnProductAppend(x, x, g, g, k, j, |g|);
    DoubledMean(ColumnProduct(x, g, k, j, |g|), |g|);
  }

  /** Presenting every example twice leaves the averaged bias gradients unchanged. */
  lemma DuplicatedBatchBiasGradients(g: Matrix, m: nat)
    requires RowsAtLeast(g, m) && |g| > 0
    ensures RowsAtLeast(g + g, m)
    ensures BiasGradients(g + g, m) == BiasGradients(g, m)
  {
    assert forall i :: 0 <= i < |g| ==> (g + g)[|g| + i] == g[i];
    var doubled := BiasGradients(g + g, m);
    var single := BiasGradients(g, m);
    forall j | 0 <= j < m
      ensures doubled[j] == single[j]
    {
      ColumnSumAppend(g, g, j, |g|);
      DoubledMean(ColumnSum(g, j, |g|), |g|);
    }
  }

  /** Input gradients are per example: a doubled batch gets each example's gradient row twice. */
  lemma DuplicatedBatchInputGradients(g: Matrix, w: Matrix, m: nat)
    requires RowsAtLeast(g, m) && RowsAtLeast(w, m)
    ensures RowsAtLeast(g + g, m)
    ensures InputGradients(g + g, w, m) == InputGradients(g, w, m) + InputGradients(g, w, m)
  {
    var doubled := InputGradients(g + g, w, m);
    var single := InputGradients(g, w, m);
    assert forall i :: 0 <= i < |g| ==> (g + g)[i] == g[i] && (g + g)[|g| + i] == g[i];
    assert forall i :: 0 <= i < |g| ==> doubled[i] == single[i] && doubled[|g| + i] == single[i];
    Doubled(doubled, single);
  }

  /** ReLU applied twice is ReLU applied once. */
  lemma ReluIdempotent(x: Matrix)
    ensures Relu(Relu(x)) == Relu(x)
  {
    var once := Relu(x);
    var twice := Relu(once);
    assert forall i :: 0 <= i < |x| ==> twice[i] == once[i];
  }

  /** The ReLU backward mask is the same whether it is taken from the cached input or from the
      forward output: a ReLU output is positive exactly where its input is. */
  lemma ReluMaskFromOutput(x: Matrix, g: Matrix)
    requires Covers(g, x)
    ensures Covers(g, Relu(x)) && ReluMask(Relu(x), g) == ReluMask(x, g)
  {
    var y := Relu(x);
    var a := ReluMask(y, g);
    var b := ReluMask(x, g);
    assert forall i :: 0 <= i < |g| ==> a[i] == b[i];
  }

  lemma SumOfQuotients(a: real, b: real, t: real)
    requires t != 0.0
    ensures a / t + b / t == (a + b) / t
  {
  }

  lemma SelfQuotient(t: real)
    requires t > 0.0
    ensures t / t == 1.0
  {
  }

  /** The first `n` softmax entries of a row add up to the first `n` shifted exponentials over all of them. */
  lemma {:induction false} SoftmaxPrefixSum(row: Vector, exp: real -> real, n: nat)
    requires |row| > 0 && PositiveExp(exp) && n <= |row|
    ensures Sum(SoftmaxRow(row, exp), n) == SumExp(row, RowMax(row), exp, n) / SumExp(row, RowMax(row), exp, |row|)
  {
    if n > 0 {
      SoftmaxPrefixSum(row, exp, n - 1);
      var r := SoftmaxRow(row, exp);
      var mx := RowMax(row);
      var total := SumExp(row, mx, exp, |row|);
      var e := exp(row[n - 1] - mx);
      var before := SumExp(row, mx, exp, n - 1);
      assert r[n - 1] == e / total;
      assert Sum(r, n) == Sum(r, n - 1) + r[n - 1];
      assert SumExp(row, mx, exp, n) == before + e;
      SumOfQuotients(before, e, total);
    }
  }

  /** Every softmax row is a probability distribution: positive entries adding up to 1. */
  lemma SoftmaxRowSumsToOne(row: Vector, exp: real -> real)
    requires |row| > 0 && PositiveExp(exp)
    ensures Sum(SoftmaxRow(row, exp), |row|) == 1.0
  {
    SoftmaxPrefixSum(row, exp, |row|);
    var total := SumExp(row, RowMax(row), exp, |row|);
    SelfQuotient(total);
  }

  /** Which parameters a load takes from the record of `saved`: the weights and biases of a Dense layer. */
  function Restored(target: LayerState, saved: LayerState): (r: LayerState)
    requires target.DenseState? == saved.DenseState?
    ensures r.inputs == target.inputs
  {
    if target.DenseState? then target.(weights := saved.weights, biases := saved.biases) else target
  }

  /** Two layers between which a record can be carried: both Dense of the same shape, or both activations. */
  predicate SameShape(s: LayerState, t: LayerState) {
    Shaped(s) && Shaped(t) && s.DenseState? == t.DenseState? &&
    (s.DenseState? ==> |s.weights| == |t.weights| && |s.biases| == |t.biases|)
  }

  /** Loading what a layer saved into a layer of the same shape restores its weights and biases
      exactly and reads no further than the record. */
  lemma LayerRoundTrip(saved: LayerState, target: LayerState, rest: seq<Token>)
    requires SameShape(saved, target) && CanSave(saved)
    ensures CanLoad(target, LayerRecord(saved) + rest)
    ensures LayerLoad(target, LayerRecord(saved) + rest) == (Restored(target, saved), rest)
  {
    if saved.DenseState? {
      RecordRoundTrip(saved.weights, saved.biases, rest);
      var source := LayerRecord(saved) + rest;
      assert ReadRecord(source, |target.weights|, |target.biases|) == Some((saved.weights, saved.biases, rest));
      assert LayerLoad(target, source).0 == DenseState(saved.weights, saved.biases, target.inputs, target.weightGradients, target.biasGradients);
    } else {
      assert LayerRecord(saved) + rest == rest;
    }
  }
}
