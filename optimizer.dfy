/** Stochastic gradient descent with every gradient entry clipped to [-1, 1]. */
module Optimizer {
  import opened Tensor

  /** The gradient entry as the optimizer applies it: clipped to [-1, 1]. */
  function Clip(g: real): (c: real)
    ensures -1.0 <= c <= 1.0
    ensures -1.0 <= g <= 1.0 ==> c == g
    ensures g > 1.0 ==> c == 1.0
    ensures g < -1.0 ==> c == -1.0
  {
    var upper := if g > 1.0 then 1.0 else g;
    if upper < -1.0 then -1.0 else upper
  }

  /** One step on a parameter matrix: each entry moves by `-lr` times its clipped gradient. */
  function StepMatrix(lr: real, w: Matrix, g: Matrix): (r: Matrix)
    requires Covers(g, w)
    ensures |r| == |w| && forall i :: 0 <= i < |w| ==> |r[i]| == |w[i]|
  {
    seq(|w|, i requires 0 <= i < |w| =>
      seq(|w[i]|, j requires 0 <= j < |w[i]| => w[i][j] - lr * Clip(g[i][j])))
  }

  /** One step on a parameter vector. */
  function StepVector(lr: real, b: Vector, g: Vector): (r: Vector)
    requires |g| >= |b|
    ensures |r| == |b|
  {
    seq(|b|, i requires 0 <= i < |b| => b[i] - lr * Clip(g[i]))
  }

  function Abs(x: real): real {
    if x < 0.0 then -x else x
  }

  /** Moving by `lr` times something in [-1, 1] moves by at most `|lr|`. */
  lemma ScaledClipBounded(lr: real, g: real)
    ensures Abs(lr * Clip(g)) <= Abs(lr)
  {
    var c := Clip(g);
    if lr >= 0.0 {
      if c >= 0.0 {
        assert lr * c <= lr * 1.0;
      } else {
        assert lr * (-c) <= lr * 1.0;
      }
    } else {
      if c >= 0.0 {
        assert (-lr) * c <= (-lr) * 1.0;
      } else {
        assert (-lr) * (-c) <= (-lr) * 1.0;
      }
    }
  }

  /** No weight moves by more than `|lr|` in one step. */
  lemma StepMatrixBounded(lr: real, w: Matrix, g: Matrix, i: nat, j: nat)
    requires Covers(g, w) && i < |w| && j < |w[i]|
    ensures Abs(StepMatrix(lr, w, g)[i][j] - w[i][j]) <= Abs(lr)
  {
    ScaledClipBounded(lr, g[i][j]);
  }

  /** No bias moves by more than `|lr|` in one step. */
  lemma StepVectorBounded(lr: real, b: Vector, g: Vector, i: nat)
    requires |g| >= |b| && i < |b|
    ensures Abs(StepVector(lr, b, g)[i] - b[i]) <= Abs(lr)
  {
    ScaledClipBounded(lr, g[i]);
  }

  /** A zero gradient entry leaves its parameter where it is; a gradient in [-1, 1] is applied unclipped. */
  lemma StepMatrixEntry(lr: real, w: Matrix, g: Matrix, i: nat, j: nat)
    requires Covers(g, w) && i < |w| && j < |w[i]|
    ensures g[i][j] == 0.0 ==> StepMatrix(lr, w, g)[i][j] == w[i][j]
    ensures -1.0 <= g[i][j] <= 1.0 ==> StepMatrix(lr, w, g)[i][j] == w[i][j] - lr * g[i][j]
  {
  }

  /** A zero gradient entry leaves its bias where it is; a gradient in [-1, 1] is applied unclipped. */
  lemma StepVectorEntry(lr: real, b: Vector, g: Vector, i: nat)
    requires |g| >= |b| && i < |b|
    ensures g[i] == 0.0 ==> StepVector(lr, b, g)[i] == b[i]
    ensures -1.0 <= g[i] <= 1.0 ==> StepVector(lr, b, g)[i] == b[i] - lr * g[i]
  {
  }

  /** With learning rate 0.1, weight 1.0 and gradient 2.0 the gradient clips to 1.0: the weight becomes 0.9, not 0.8. */
  lemma ClippedStepExample()
    ensures StepMatrix(0.1, [[1.0]], [[2.0]]) == [[0.9]]
    ensures StepMatrix(0.1, [[1.0]], [[2.0]]) != [[0.8]]
  {
    var r := StepMatrix(0.1, [[1.0]], [[2.0]]);
    assert r[0][0] == 0.9;
    assert r[0] == [0.9];
  }

  /** SGD; the learning rate is fixed when the optimizer is built. */
  class SGDOptimizer {
    const learningRate: real

    constructor (lr: real)
      ensures learningRate == lr
    {
      learningRate := lr;
    }

    /** Steps every entry of `weights` against its clipped gradient; `gradients` is only read. */
    method UpdateMatrix(weights: Matrix, gradients: Matrix) returns (updated: Matrix)
      requires Covers(gradients, weights)
      ensures updated == StepMatrix(learningRate, weights, gradients)
    {
      updated := weights;
      ghost var spec := StepMatrix(learningRate, weights, gradients);
      var i := 0;
      while i < |updated|
        invariant 0 <= i <= |weights| && |updated| == |weights|
        invariant forall r :: 0 <= r < i ==> updated[r] == spec[r]
        invariant forall r :: i <= r < |weights| ==> updated[r] == weights[r]
      {
        // The row `updated[i]`, entry by entry.
        var row := updated[i];
        var j := 0;
        while j < |row|
          invariant 0 <= j <= |row| == |weights[i]|
          invariant forall c :: 0 <= c < j ==> row[c] == spec[i][c]
          invariant forall c :: j <= c < |row| ==> row[c] == weights[i][c]
        {
          var grad := gradients[i][j];
          if grad > 1.0 { grad := 1.0; }
          if grad < -1.0 { grad := -1.0; }
          row := row[j := row[j] - learningRate * grad];
          j := j + 1;
        }
        assert row == spec[i];
        updated := updated[i := row];
        i := i + 1;
      }
      assert updated == spec;
    }

    /** Steps every entry of `biases` against its clipped gradient; `gradients` is only read. */
    method UpdateVector(biases: Vector, gradients: Vector) returns (updated: Vector)
      requires |gradients| >= |biases|
      ensures updated == StepVector(learningRate, biases, gradients)
    {
      updated := biases;
      ghost var spec := StepVector(learningRate, biases, gradients);
      var i := 0;
      while i < |updated|
        invariant 0 <= i <= |biases| && |updated| == |biases|
        invariant forall c :: 0 <= c < i ==> updated[c] == spec[c]
        invariant forall c :: i <= c < |biases| ==> updated[c] == biases[c]
      {
        var grad := gradients[i];
        if grad > 1.0 { grad := 1.0; }
        if grad < -1.0 { grad := -1.0; }
        updated := updated[i := updated[i] - learningRate * grad];
        i := i + 1;
      }
      assert updated == spec;
    }
  }
}
