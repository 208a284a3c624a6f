/** The model file, as a sequence of tokens. A Dense layer's record is its two sizes
    followed by its weights row by row and then its biases; nothing else is written. */
module ModelFile {
  import opened Tensor
  import opened Errors

  datatype Token =
    /** A platform-width unsigned size. */
    | SizeToken(size: nat)
    /** One 32-bit float. */
    | FloatToken(value: real)

  /** The tokens of a block write of `v`. */
  function Floats(v: Vector): (ts: seq<Token>)
    ensures |ts| == |v| && forall i :: 0 <= i < |v| ==> ts[i] == FloatToken(v[i])
  {
    seq(|v|, i requires 0 <= i < |v| => FloatToken(v[i]))
  }

  /** The rows of `w`, one block write after another. */
  function Flatten(w: Matrix): seq<Token>
  {
    if w == [] then [] else Floats(w[0]) + Flatten(w[1..])
  }

  /** The record a Dense layer writes: input size, output size (the width of the first row), weights, biases. */
  function DenseRecord(w: Matrix, b: Vector): seq<Token>
    requires |w| > 0
  {
    [SizeToken(|w|), SizeToken(|w[0]|)] + Flatten(w) + Floats(b)
  }

  predicate AllFloats(ts: seq<Token>) {
    forall i :: 0 <= i < |ts| ==> ts[i].FloatToken?
  }

  /** A block read of `n` floats; `None` when the source does not hold them. */
  function ReadFloats(source: seq<Token>, n: nat): (r: Option<(Vector, seq<Token>)>)
    ensures r.Some? <==> n <= |source| && AllFloats(source[..n])
    ensures r.Some? ==> |r.value.0| == n && r.value.1 == source[n..]
    ensures r.Some? ==> forall i :: 0 <= i < n ==> source[i] == FloatToken(r.value.0[i])
  {
    if n <= |source| && AllFloats(source[..n]) then
      Some((seq(n, i requires 0 <= i < n => source[i].value), source[n..]))
    else None
  }

  /** `rows` block reads of `cols` floats each. */
  function ReadRows(source: seq<Token>, rows: nat, cols: nat): (r: Option<(Matrix, seq<Token>)>)
    ensures r.Some? ==> IsMatrix(r.value.0, rows, cols)
    decreases rows
  {
    if rows == 0 then Some(([], source))
    else match ReadFloats(source, cols)
      case None => None
      case Some((row, after)) =>
        match ReadRows(after, rows - 1, cols)
        case None => None
        case Some((more, rest)) => Some(([row] + more, rest))
  }

  /** What loading a layer of shape `inputSize` x `outputSize` reads: its weights, its biases and
      the rest of the source; `None` when the source does not start with a record of that shape. */
  function ReadRecord(source: seq<Token>, inputSize: nat, outputSize: nat): (r: Option<(Matrix, Vector, seq<Token>)>)
    ensures r.Some? ==> IsMatrix(r.value.0, inputSize, outputSize) && |r.value.1| == outputSize
  {
    if |source| < 2 || source[0] != SizeToken(inputSize) || source[1] != SizeToken(outputSize) then None
    else match ReadRows(source[2..], inputSize, outputSize)
      case None => None
      case Some((w, after)) =>
        match ReadFloats(after, outputSize)
        case None => None
        case Some((b, rest)) => Some((w, b, rest))
  }

  /** Reading back the floats just written gives them back, and leaves what follows. */
  lemma FloatsRoundTrip(v: Vector, rest: seq<Token>)
    ensures ReadFloats(Floats(v) + rest, |v|) == Some((v, rest))
  {
    var s := Floats(v) + rest;
    assert s[..|v|] == Floats(v);
    assert s[|v|..] == rest;
    assert AllFloats(s[..|v|]);
    var r := ReadFloats(s, |v|);
    assert r.value.0 == v;
  }

  /** Reading back the rows just written gives them back, and leaves what follows. */
  lemma {:induction false} RowsRoundTrip(w: Matrix, cols: nat, rest: seq<Token>)
    requires IsMatrix(w, |w|, cols)
    ensures ReadRows(Flatten(w) + rest, |w|, cols) == Some((w, rest))
  {
    if w != [] {
      var tail := Flatten(w[1..]) + rest;
      assert Flatten(w) + rest == Floats(w[0]) + tail;
      FloatsRoundTrip(w[0], tail);
      RowsRoundTrip(w[1..], cols, rest);
      assert [w[0]] + w[1..] == w;
    } else {
      assert Flatten(w) + rest == rest;
    }
  }

  /** Loading a record into a layer of the shape that wrote it restores weights and biases exactly. */
  lemma {:induction false} RecordRoundTrip(w: Matrix, b: Vector, rest: seq<Token>)
    requires |w| > 0 && IsMatrix(w, |w|, |b|)
    ensures ReadRecord(DenseRecord(w, b) + rest, |w|, |b|) == Some((w, b, rest))
  {
    var s := DenseRecord(w, b) + rest;
    assert s[2..] == Flatten(w) + (Floats(b) + rest);
    RowsRoundTrip(w, |b|, Floats(b) + rest);
    FloatsRoundTrip(b, rest);
  }

  /** Appending one more row appends its block write. */
  lemma {:induction false} FlattenSnoc(w: Matrix, k: nat)
    requires k < |w|
    ensures Flatten(w[..k + 1]) == Flatten(w[..k]) + Floats(w[k])
  {
    if k > 0 {
      var p := w[1..];
      assert w[..k + 1][1..] == p[..k];
      assert w[..k][1..] == p[..k - 1];
      FlattenSnoc(p, k - 1);
    } else {
      assert w[..1][1..] == [];
    }
  }

  /** The tokens of several writes, one after another. */
  function Concat<T>(parts: seq<seq<T>>): seq<T>
  {
    if parts == [] then [] else Concat(parts[..|parts| - 1]) + parts[|parts| - 1]
  }

  /** Writing `a`'s parts and then `b`'s is writing the parts of `a + b`. */
  lemma {:induction false} ConcatAppend<T>(a: seq<seq<T>>, b: seq<seq<T>>)
    ensures Concat(a + b) == Concat(a) + Concat(b)
    decreases |b|
  {
    if b == [] {
      assert a + b == a;
    } else {
      var c := b[..|b| - 1];
      ConcatAppend(a, c);
      assert (a + b)[..|a + b| - 1] == a + c;
    }
  }

  /** A non-empty run of writes is its first write followed by the others. */
  lemma ConcatCons<T>(parts: seq<seq<T>>)
    requires parts != []
    ensures Concat(parts) == parts[0] + Concat(parts[1..])
  {
    ConcatAppend([parts[0]], parts[1..]);
    assert [parts[0]] + parts[1..] == parts;
    assert Concat([parts[0]]) == Concat<T>([]) + parts[0];
  }
}
