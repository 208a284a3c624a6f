/** Batch accuracy and min-max scaling. */
module Utils {
  import opened Tensor

  /** The number of rows among the first `n` whose first largest prediction sits where the
      first largest target does. */
  function Correct(predictions: Matrix, targets: Matrix, n: nat): (c: nat)
    requires n <= |predictions| && n <= |targets|
    ensures c <= n
  {
    if n == 0 then 0
    else Correct(predictions, targets, n - 1) + (if ArgMax(predictions[n - 1]) == ArgMax(targets[n - 1]) then 1 else 0)
  }

  /** Counts the rows whose predicted class (the first index of the largest prediction) is the
      true class (the first index of the largest target). */
  method CalculateBatchAccuracy(predictions: Matrix, targets: Matrix) returns (correct: int)
    requires |targets| >= |predictions|
    ensures correct == Correct(predictions, targets, |predictions|)
    ensures 0 <= correct <= |predictions|
  {
    correct := 0;
    var i := 0;
    while i < |predictions|
      invariant 0 <= i <= |predictions|
      invariant correct == Correct(predictions, targets, i)
    {
      var predClass := ArgMax(predictions[i]);
      var trueClass := ArgMax(targets[i]);
      if predClass == trueClass {
        correct := correct + 1;
      }
      i := i + 1;
    }
  }

  /** A row is counted exactly when its two classes agree. */
  lemma {:induction false} CorrectIsCount(predictions: Matrix, targets: Matrix, n: nat)
    requires n <= |predictions| && n <= |targets|
    ensures Correct(predictions, targets, n) == n <==>
            forall i :: 0 <= i < n ==> ArgMax(predictions[i]) == ArgMax(targets[i])
    ensures Correct(predictions, targets, n) == 0 <==>
            forall i :: 0 <= i < n ==> ArgMax(predictions[i]) != ArgMax(targets[i])
  {
    if n > 0 {
      CorrectIsCount(predictions, targets, n - 1);
    }
  }

  /** Predicting the targets themselves scores every row. */
  lemma PerfectPredictions(targets: Matrix)
    ensures Correct(targets, targets, |targets|) == |targets|
  {
    CorrectIsCount(targets, targets, |targets|);
  }

  /** Stacking two batches adds their counts. */
  lemma {:induction false} CorrectAppend(pa: Matrix, ta: Matrix, pb: Matrix, tb: Matrix, n: nat)
    requires |pa| == |ta| && n <= |pb| && n <= |tb|
    ensures Correct(pa + pb, ta + tb, |pa| + n) == Correct(pa, ta, |pa|) + Correct(pb, tb, n)
  {
    if n == 0 {
      assert forall i :: 0 <= i < |pa| ==> (pa + pb)[i] == pa[i] && (ta + tb)[i] == ta[i];
      CorrectPrefix(pa + pb, ta + tb, pa, ta, |pa|);
    } else {
      CorrectAppend(pa, ta, pb, tb, n - 1);
      assert (pa + pb)[|pa| + n - 1] == pb[n - 1];
      assert (ta + tb)[|pa| + n - 1] == tb[n - 1];
    }
  }

  /** The count only looks at the rows it counts. */
  lemma {:induction false} CorrectPrefix(p: Matrix, t: Matrix, q: Matrix, u: Matrix, n: nat)
    requires n <= |p| && n <= |t| && n <= |q| && n <= |u|
    requires forall i :: 0 <= i < n ==> p[i] == q[i] && t[i] == u[i]
    ensures Correct(p, t, n) == Correct(q, u, n)
  {
    if n > 0 {
      CorrectPrefix(p, t, q, u, n - 1);
    }
  }

  /** Two predictions against one-hot targets, both right. */
  lemma AccuracyExample()
    ensures Correct([[0.1, 0.9], [0.8, 0.2]], [[0.0, 1.0], [1.0, 0.0]], 2) == 2
  {
    var p: Matrix := [[0.1, 0.9], [0.8, 0.2]];
    var t: Matrix := [[0.0, 1.0], [1.0, 0.0]];
    assert ArgMax(p[0]) == 1 && ArgMax(t[0]) == 1;
    assert ArgMax(p[1]) == 0 && ArgMax(t[1]) == 0;
  }

  /** A tie is broken toward the lower index, in the prediction as in the target. */
  lemma TieExample()
    ensures Correct([[0.5, 0.5]], [[1.0, 0.0]], 1) == 1
    ensures Correct([[0.5, 0.5]], [[0.0, 1.0]], 1) == 0
  {
    assert ArgMax([0.5, 0.5]) == 0;
    assert ArgMax([1.0, 0.0]) == 0;
    assert ArgMax([0.0, 1.0]) == 1;
  }

  /** The smallest entry (`*std::min_element`). */
  function Minimum(v: Vector): (m: real)
    requires |v| > 0
    ensures (exists i :: 0 <= i < |v| && v[i] == m) && forall i :: 0 <= i < |v| ==> m <= v[i]
  {
    v[ArgMinPrefix(v, |v|)]
  }

  /** The largest entry (`*std::max_element`). */
  function Maximum(v: Vector): (m: real)
    requires |v| > 0
    ensures (exists i :: 0 <= i < |v| && v[i] == m) && forall i :: 0 <= i < |v| ==> v[i] <= m
  {
    v[ArgMax(v)]
  }

  /** A row whose entries are not all equal. */
  predicate Spread(v: Vector) {
    |v| > 0 && Minimum(v) < Maximum(v)
  }

  /** Min-max scaling of every entry of `v`. */
  function Normalized(v: Vector): (r: Vector)
    requires Spread(v)
    ensures |r| == |v|
  {
    var lo, hi := Minimum(v), Maximum(v);
    seq(|v|, i requires 0 <= i < |v| => (v[i] - lo) / (hi - lo))
  }

  /** Fills a fresh row with the scaled entries. */
  method Normalize(v: Vector) returns (normalized: Vector)
    requires Spread(v)
    ensures normalized == Normalized(v)
  {
    var minValue := Minimum(v);
    var maxValue := Maximum(v);
    normalized := seq(|v|, _ => 0.0);
    var i := 0;
    while i < |v|
      invariant 0 <= i <= |v| && |normalized| == |v|
      invariant forall k :: 0 <= k < i ==> normalized[k] == Normalized(v)[k]
    {
      normalized := normalized[i := (v[i] - minValue) / (maxValue - minValue)];
      i := i + 1;
    }
  }

  /** `a/d` lies in [0, 1] when `0 <= a <= d`. */
  lemma UnitQuotient(a: real, d: real)
    requires 0.0 <= a <= d && d > 0.0
    ensures 0.0 <= a / d <= 1.0
  {
    assert a / d * d == a;
  }

  /** Every scaled entry lies in [0, 1]. */
  lemma NormalizedInUnitInterval(v: Vector)
    requires Spread(v)
    ensures forall i :: 0 <= i < |v| ==> 0.0 <= Normalized(v)[i] <= 1.0
  {
    var lo, hi := Minimum(v), Maximum(v);
    forall i | 0 <= i < |v|
      ensures 0.0 <= Normalized(v)[i] <= 1.0
    {
      UnitQuotient(v[i] - lo, hi - lo);
    }
  }

  /** The smallest entries scale to 0 and the largest to 1. */
  lemma NormalizedExtremes(v: Vector)
    requires Spread(v)
    ensures forall i :: 0 <= i < |v| && v[i] == Minimum(v) ==> Normalized(v)[i] == 0.0
    ensures forall i :: 0 <= i < |v| && v[i] == Maximum(v) ==> Normalized(v)[i] == 1.0
  {
    var d := Maximum(v) - Minimum(v);
    assert d / d == 1.0;
  }

  /** Scaling keeps the order of the entries, in both directions. */
  lemma NormalizedOrder(v: Vector, a: nat, b: nat)
    requires Spread(v) && a < |v| && b < |v|
    ensures v[a] <= v[b] <==> Normalized(v)[a] <= Normalized(v)[b]
  {
    var lo, hi := Minimum(v), Maximum(v);
    QuotientOrder(v[a] - lo, v[b] - lo, hi - lo);
  }

  /** Dividing by a positive number keeps the order. */
  lemma QuotientOrder(x: real, y: real, d: real)
    requires d > 0.0
    ensures x <= y <==> x / d <= y / d
  {
    if x <= y {
      assert y / d - x / d == (y - x) / d;
    } else {
      assert x / d - y / d == (x - y) / d;
    }
  }
}
