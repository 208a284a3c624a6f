/** Cross-entropy loss and the combined softmax/cross-entropy gradient. The natural logarithm is a
    parameter `log`: it is the one operation here that exact arithmetic cannot state. */
module Loss {
  import opened Tensor

  /** The constant added to every prediction before its logarithm is taken (1e-9). */
  const Epsilon: real := 0.000000001

  /** Σ_{j < m} t[j] * log(p[j] + ε) for one row. */
  function RowLogLikelihood(p: Vector, t: Vector, log: real -> real, m: nat): real
    requires m <= |p| && m <= |t|
  {
    if m == 0 then 0.0 else RowLogLikelihood(p, t, log, m - 1) + t[m - 1] * log(p[m - 1] + Epsilon)
  }

  /** Σ_{i < n} of the row terms, each row over its own width in `predictions`. */
  function LogLikelihood(predictions: Matrix, targets: Matrix, log: real -> real, n: nat): real
    requires n <= |predictions| && Covers(targets, predictions)
  {
    if n == 0 then 0.0 else
      LogLikelihood(predictions, targets, log, n - 1)
      + RowLogLikelihood(predictions[n - 1], targets[n - 1], log, |predictions[n - 1]|)
  }

  /** The loss value: minus the summed terms, divided by the number of rows only (not rows x columns). */
  function CrossEntropy(predictions: Matrix, targets: Matrix, log: real -> real): real
    requires |predictions| > 0 && Covers(targets, predictions)
  {
    -LogLikelihood(predictions, targets, log, |predictions|) / (|predictions| as real)
  }

  /** Accumulates the terms row by row, then divides by the batch size. */
  method CalculateLoss(predictions: Matrix, targets: Matrix, log: real -> real) returns (loss: real)
    requires |predictions| > 0 && Covers(targets, predictions)
    ensures loss == CrossEntropy(predictions, targets, log)
  {
    var total := 0.0;
    var i := 0;
    while i < |predictions|
      invariant 0 <= i <= |predictions|
      invariant total == LogLikelihood(predictions, targets, log, i)
    {
      var j := 0;
      ghost var before := total;
      while j < |predictions[i]|
        invariant 0 <= j <= |predictions[i]|
        invariant total == before + RowLogLikelihood(predictions[i], targets[i], log, j)
      {
        total := total + targets[i][j] * log(predictions[i][j] + Epsilon);
        j := j + 1;
      }
      i := i + 1;
    }
    loss := -total / (|predictions| as real);
  }

  /** Stacking two batches adds their summed terms. */
  lemma {:induction false} LogLikelihoodAppend(pa: Matrix, ta: Matrix, pb: Matrix, tb: Matrix, log: real -> real, n: nat)
    requires |pa| == |ta| && Covers(ta, pa) && Covers(tb, pb) && n <= |pb|
    ensures Covers(ta + tb, pa + pb)
    ensures LogLikelihood(pa + pb, ta + tb, log, |pa| + n)
         == LogLikelihood(pa, ta, log, |pa|) + LogLikelihood(pb, tb, log, n)
  {
    CoversAppend(ta, pa, tb, pb);
    if n == 0 {
      assert forall i :: 0 <= i < |pa| ==> (pa + pb)[i] == pa[i] && (ta + tb)[i] == ta[i];
      LogLikelihoodPrefix(pa + pb, ta + tb, pa, ta, log, |pa|);
    } else {
      LogLikelihoodAppend(pa, ta, pb, tb, log, n - 1);
      assert (pa + pb)[|pa| + n - 1] == pb[n - 1] && (ta + tb)[|pa| + n - 1] == tb[n - 1];
    }
  }

  /** The summed terms only look at the rows they sum. */
  lemma {:induction false} LogLikelihoodPrefix(p: Matrix, t: Matrix, q: Matrix, u: Matrix, log: real -> real, n: nat)
    requires n <= |p| && n <= |q| && Covers(t, p) && Covers(u, q)
    requires forall i :: 0 <= i < n ==> p[i] == q[i] && t[i] == u[i]
    ensures LogLikelihood(p, t, log, n) == LogLikelihood(q, u, log, n)
  {
    if n > 0 {
      LogLikelihoodPrefix(p, t, q, u, log, n - 1);
    }
  }

  /** The loss is a mean over rows: feeding the same batch twice gives the same loss. */
  lemma LossIsRowMean(predictions: Matrix, targets: Matrix, log: real -> real)
    requires |predictions| > 0 && |targets| == |predictions| && Covers(targets, predictions)
    ensures Covers(targets + targets, predictions + predictions)
    ensures CrossEntropy(predictions + predictions, targets + targets, log) == CrossEntropy(predictions, targets, log)
  {
    LogLikelihoodAppend(predictions, targets, predictions, targets, log, |predictions|);
    var s := LogLikelihood(predictions, targets, log, |predictions|);
    var n := |predictions| as real;
    assert -(s + s) / (n + n) == -s / n;
  }

  /** A single-row loss is minus that row's summed terms, not divided by its width. */
  lemma SingleRowLoss(p: Vector, t: Vector, log: real -> real)
    requires |t| >= |p|
    ensures CrossEntropy([p], [t], log) == -RowLogLikelihood(p, t, log, |p|)
  {
    assert LogLikelihood([p], [t], log, 1) == RowLogLikelihood(p, t, log, |p|);
  }

  /** `predictions - targets`, elementwise, in the shape of `predictions`; neither input is changed. */
  method CalculateGradient(predictions: Matrix, targets: Matrix) returns (gradients: Matrix)
    requires Covers(targets, predictions)
    ensures |gradients| == |predictions|
    ensures forall i :: 0 <= i < |predictions| ==> |gradients[i]| == |predictions[i]|
    ensures forall i, j :: 0 <= i < |predictions| && 0 <= j < |predictions[i]| ==>
      gradients[i][j] == predictions[i][j] - targets[i][j]
    ensures predictions == targets ==>
      forall i, j :: 0 <= i < |gradients| && 0 <= j < |gradients[i]| ==> gradients[i][j] == 0.0
  {
    gradients := predictions;
    var i := 0;
    while i < |predictions|
      invariant 0 <= i <= |predictions| && |gradients| == |predictions|
      invariant forall r :: 0 <= r < |predictions| ==> |gradients[r]| == |predictions[r]|
      invariant forall r, c :: 0 <= r < i && 0 <= c < |predictions[r]| ==>
        gradients[r][c] == predictions[r][c] - targets[r][c]
      invariant forall r :: i <= r < |predictions| ==> gradients[r] == predictions[r]
    {
      var j := 0;
      while j < |predictions[i]|
        invariant 0 <= j <= |predictions[i]| && |gradients| == |predictions|
        invariant forall r :: 0 <= r < |predictions| ==> |gradients[r]| == |predictions[r]|
        invariant forall r, c :: 0 <= r < i && 0 <= c < |predictions[r]| ==>
          gradients[r][c] == predictions[r][c] - targets[r][c]
        invariant forall c :: 0 <= c < j ==> gradients[i][c] == predictions[i][c] - targets[i][c]
        invariant forall c :: j <= c < |predictions[i]| ==> gradients[i][c] == predictions[i][c]
        invariant forall r :: i < r < |predictions| ==> gradients[r] == predictions[r]
      {
        gradients := gradients[i := gradients[i][j := gradients[i][j] - targets[i][j]]];
        j := j + 1;
      }
      i := i + 1;
    }
  }
}
