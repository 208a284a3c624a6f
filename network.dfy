/** The network: an ordered list of layers. Forward runs them first to last, backward last to
    first, update visits each once in order, and save/load hand the model stream to each in turn. */
module Network {
  import opened Tensor
  import opened Errors
  import opened Optimizer
  import opened ModelFile
  import opened Layers

  // ---------------------------------------------------------------------------------------------
  // The passes, over the states of the layers

  /** A forward pass from layer `i` on, started with `x`, only reaches layers that can take their input. */
  ghost predicate ForwardDefinedFrom(states: seq<LayerState>, i: nat, x: Matrix, exp: real -> real)
    requires i <= |states| && PositiveExp(exp)
    decreases |states| - i
  {
    i == |states| ||
    (CanForward(states[i], x) &&
     var out := LayerForward(states[i], x, exp).1;
     out.Err? || ForwardDefinedFrom(states, i + 1, out.value, exp))
  }

  /** The states of layers `i..` after a forward pass from layer `i` started with `x`, and its result:
      `layer_n(...layer_i(x))`, or the first error, after which no later layer runs. */
  ghost function ForwardFrom(states: seq<LayerState>, i: nat, x: Matrix, exp: real -> real): (r: (seq<LayerState>, Result<Matrix>))
    requires i <= |states| && PositiveExp(exp) && ForwardDefinedFrom(states, i, x, exp)
    ensures |r.0| == |states| - i
    decreases |states| - i
  {
    if i == |states| then ([], Ok(x))
    else
      var (s, out) := LayerForward(states[i], x, exp);
      if out.Err? then ([s] + states[i + 1..], out)
      else
        var (later, y) := ForwardFrom(states, i + 1, out.value, exp);
        ([s] + later, y)
  }

  /** A backward pass through layers `i-1` down to 0, started with `g`, only reaches layers that can take it. */
  ghost predicate BackwardDefinedFrom(states: seq<LayerState>, i: nat, g: Matrix)
    requires i <= |states|
  {
    i == 0 ||
    (CanBackward(states[i - 1], g) &&
     var out := LayerBackward(states[i - 1], g).1;
     out.Err? || BackwardDefinedFrom(states, i - 1, out.value))
  }

  /** The layer a backward pass from `i` reaches first can take the gradient. */
  lemma BackwardFirstDefined(states: seq<LayerState>, i: nat, g: Matrix)
    requires 0 < i <= |states| && BackwardDefinedFrom(states, i, g)
    ensures CanBackward(states[i - 1], g)
  {
  }

  /** The states of layers `0..i-1` after a backward pass through them from layer `i - 1` down,
      started with `g`, and the gradient the first layer returns (or the first error). */
  ghost function BackwardFrom(states: seq<LayerState>, i: nat, g: Matrix): (r: (seq<LayerState>, Result<Matrix>))
    requires i <= |states| && BackwardDefinedFrom(states, i, g)
    ensures |r.0| == i
  {
    if i == 0 then ([], Ok(g))
    else
      var (s, out) := LayerBackward(states[i - 1], g);
      if out.Err? then (states[..i - 1] + [s], out)
      else
        var (earlier, h) := BackwardFrom(states, i - 1, out.value);
        (earlier + [s], h)
  }

  /** The program's backward pass returns nothing: only an error survives. */
  function Outcome(r: Result<Matrix>): (o: Result<()>)
    ensures o.Err? <==> r.Err?
    ensures r.Err? ==> o.error == r.error
  {
    if r.Err? then Err(r.error) else Ok(())
  }

  /** Every layer, updated once with learning rate `lr`. */
  ghost function UpdateAll(states: seq<LayerState>, lr: real): (r: seq<LayerState>)
    requires forall j :: 0 <= j < |states| ==> CanUpdate(states[j])
    ensures |r| == |states| && forall j :: 0 <= j < |states| ==> r[j] == LayerUpdate(states[j], lr)
  {
    seq(|states|, j requires 0 <= j < |states| => LayerUpdate(states[j], lr))
  }

  /** Each layer's record, in order. */
  function Records(states: seq<LayerState>): (r: seq<seq<Token>>)
    requires forall j :: 0 <= j < |states| ==> CanSave(states[j])
    ensures |r| == |states| && forall j :: 0 <= j < |states| ==> r[j] == LayerRecord(states[j])
  {
    seq(|states|, j requires 0 <= j < |states| => LayerRecord(states[j]))
  }

  /** The model file of a network: each layer's record, in order. */
  function SaveAll(states: seq<LayerState>): seq<Token>
    requires forall j :: 0 <= j < |states| ==> CanSave(states[j])
  {
    Concat(Records(states))
  }

  /** Loading layers `i..` in turn from `source`: each must find a record of its own shape. */
  ghost predicate LoadDefinedFrom(states: seq<LayerState>, i: nat, source: seq<Token>)
    requires i <= |states|
    decreases |states| - i
  {
    i == |states| ||
    (CanLoad(states[i], source) && LoadDefinedFrom(states, i + 1, LayerLoad(states[i], source).1))
  }

  /** The states of layers `i..` after each has loaded in turn from `source`, and what is left unread. */
  ghost function LoadFrom(states: seq<LayerState>, i: nat, source: seq<Token>): (r: (seq<LayerState>, seq<Token>))
    requires i <= |states| && LoadDefinedFrom(states, i, source)
    ensures |r.0| == |states| - i
    decreases |states| - i
  {
    if i == |states| then ([], source)
    else
      var (s, after) := LayerLoad(states[i], source);
      var (later, rest) := LoadFrom(states, i + 1, after);
      ([s] + later, rest)
  }

  // ---------------------------------------------------------------------------------------------
  // Frame lemmas: each pass from layer `i` only looks at the layers it runs

  lemma {:induction false} ForwardFromAgree(a: seq<LayerState>, b: seq<LayerState>, i: nat, x: Matrix, exp: real -> real)
    requires i <= |a| == |b| && PositiveExp(exp)
    requires forall j :: i <= j < |a| ==> a[j] == b[j]
    requires ForwardDefinedFrom(a, i, x, exp)
    ensures ForwardDefinedFrom(b, i, x, exp) && ForwardFrom(a, i, x, exp) == ForwardFrom(b, i, x, exp)
    decreases |a| - i
  {
    if i < |a| {
      var out := LayerForward(a[i], x, exp).1;
      if out.Ok? {
        ForwardFromAgree(a, b, i + 1, out.value, exp);
      } else {
        assert a[i + 1..] == b[i + 1..];
      }
    }
  }

  lemma {:induction false} BackwardFromAgree(a: seq<LayerState>, b: seq<LayerState>, i: nat, g: Matrix)
    requires i <= |a| && i <= |b|
    requires forall j :: 0 <= j < i ==> a[j] == b[j]
    requires BackwardDefinedFrom(a, i, g)
    ensures BackwardDefinedFrom(b, i, g) && BackwardFrom(a, i, g) == BackwardFrom(b, i, g)
  {
    if i > 0 {
      var out := LayerBackward(a[i - 1], g).1;
      if out.Ok? {
        BackwardFromAgree(a, b, i - 1, out.value);
      } else {
        assert a[..i - 1] == b[..i - 1];
      }
    }
  }

  lemma {:induction false} LoadFromAgree(a: seq<LayerState>, b: seq<LayerState>, i: nat, source: seq<Token>)
    requires i <= |a| == |b|
    requires forall j :: i <= j < |a| ==> a[j] == b[j]
    requires LoadDefinedFrom(a, i, source)
    ensures LoadDefinedFrom(b, i, source) && LoadFrom(a, i, source) == LoadFrom(b, i, source)
    decreases |a| - i
  {
    if i < |a| {
      LoadFromAgree(a, b, i + 1, LayerLoad(a[i], source).1);
    }
  }

  /** Saving one more layer appends its record. */
  lemma SaveAllSnoc(states: seq<LayerState>, i: nat)
    requires i < |states| && forall j :: 0 <= j < |states| ==> CanSave(states[j])
    ensures SaveAll(states[..i + 1]) == SaveAll(states[..i]) + LayerRecord(states[i])
  {
    var parts := Records(states[..i + 1]);
    assert parts[..i] == Records(states[..i]);
    assert parts[i] == LayerRecord(states[i]);
  }

  // ---------------------------------------------------------------------------------------------
  // One loop step of each pass: layer `i` has run, every other layer is as it was

  /** What the layer states must match after layer `i` of a pass has run. */
  predicate StepFrame(before: seq<LayerState>, after: seq<LayerState>, i: nat, s: LayerState) {
    i < |before| == |after| && after[i] == s && forall j :: 0 <= j < |before| && j != i ==> after[j] == before[j]
  }

  /** The layer a forward pass from `i` reaches first can take the input. */
  lemma ForwardFirstDefined(states: seq<LayerState>, i: nat, x: Matrix, exp: real -> real)
    requires i < |states| && PositiveExp(exp) && ForwardDefinedFrom(states, i, x, exp)
    ensures CanForward(states[i], x)
  {
  }

  /** One forward step in which layer `i` fails: the pass ends there, the later layers untouched. */
  lemma ForwardStepErr(before: seq<LayerState>, after: seq<LayerState>, i: nat, x: Matrix, exp: real -> real,
                       s: LayerState, e: Result<Matrix>)
    requires i < |before| && PositiveExp(exp) && ForwardDefinedFrom(before, i, x, exp)
    requires LayerForward(before[i], x, exp) == (s, e) && e.Err? && StepFrame(before, after, i, s)
    ensures after == before[..i] + ForwardFrom(before, i, x, exp).0 && ForwardFrom(before, i, x, exp).1 == e
  {
    assert after == before[..i] + ([s] + before[i + 1..]);
  }

  /** One forward step in which layer `i` passes `y` on: the rest of the pass continues from the new states. */
  lemma ForwardStepOk(before: seq<LayerState>, after: seq<LayerState>, i: nat, x: Matrix, exp: real -> real,
                      s: LayerState, y: Matrix)
    requires i < |before| && PositiveExp(exp) && ForwardDefinedFrom(before, i, x, exp)
    requires LayerForward(before[i], x, exp) == (s, Ok(y)) && StepFrame(before, after, i, s)
    ensures ForwardDefinedFrom(after, i + 1, y, exp)
    ensures before[..i] + ForwardFrom(before, i, x, exp).0 == after[..i + 1] + ForwardFrom(after, i + 1, y, exp).0
    ensures ForwardFrom(before, i, x, exp).1 == ForwardFrom(after, i + 1, y, exp).1
  {
    ForwardFromOk(before, i, x, exp, s, y);
    assert forall j :: i + 1 <= j < |before| ==> before[j] == after[j];
    ForwardFromAgree(before, after, i + 1, y, exp);
    StepFramePrefix(before, after, i, s);
    AppendAssociative(before[..i], [s], ForwardFrom(before, i + 1, y, exp).0);
  }

  /** A forward pass from `i` through a layer that passes `y` on continues from `i + 1` with `y`. */
  lemma ForwardFromOk(states: seq<LayerState>, i: nat, x: Matrix, exp: real -> real, s: LayerState, y: Matrix)
    requires i < |states| && PositiveExp(exp) && ForwardDefinedFrom(states, i, x, exp)
    requires LayerForward(states[i], x, exp) == (s, Ok(y))
    ensures ForwardDefinedFrom(states, i + 1, y, exp)
    ensures ForwardFrom(states, i, x, exp) == ([s] + ForwardFrom(states, i + 1, y, exp).0, ForwardFrom(states, i + 1, y, exp).1)
  {
  }

  /** After a step at layer `k`, the states up to `k` are the old earlier ones and the new state. */
  lemma StepFramePrefix(before: seq<LayerState>, after: seq<LayerState>, k: nat, s: LayerState)
    requires StepFrame(before, after, k, s)
    ensures after[..k + 1] == before[..k] + [s]
  {
    assert forall j :: 0 <= j <= k ==> after[..k + 1][j] == (before[..k] + [s])[j];
  }

  /** One backward step in which layer `i - 1` fails: the pass ends there, with the states it has reached. */
  lemma BackwardStepErr(before: seq<LayerState>, after: seq<LayerState>, i: nat, g: Matrix, s: LayerState, e: Result<Matrix>)
    requires 0 < i <= |before| && BackwardDefinedFrom(before, i, g)
    requires LayerBackward(before[i - 1], g) == (s, e) && e.Err? && StepFrame(before, after, i - 1, s)
    ensures after == BackwardFrom(before, i, g).0 + before[i..] && BackwardFrom(before, i, g).1 == e
  {
    assert after == (before[..i - 1] + [s]) + before[i..];
  }

  /** One backward step in which layer `i - 1` passes gradient `h` on: the rest of the pass
      continues from the new states. */
  lemma BackwardStepOk(before: seq<LayerState>, after: seq<LayerState>, i: nat, g: Matrix, s: LayerState, h: Matrix)
    requires 0 < i <= |before| && BackwardDefinedFrom(before, i, g)
    requires LayerBackward(before[i - 1], g) == (s, Ok(h)) && StepFrame(before, after, i - 1, s)
    ensures BackwardDefinedFrom(after, i - 1, h)
    ensures BackwardFrom(before, i, g).0 + before[i..] == BackwardFrom(after, i - 1, h).0 + after[i - 1..]
    ensures BackwardFrom(before, i, g).1 == BackwardFrom(after, i - 1, h).1
  {
    BackwardFromOk(before, i, g, s, h);
    assert forall j :: 0 <= j < i - 1 ==> before[j] == after[j];
    BackwardFromAgree(before, after, i - 1, h);
    StepFrameSuffix(before, after, i - 1, s);
    var earlier, later := BackwardFrom(before, i - 1, h).0, before[i..];
    AppendAssociative(earlier, [s], later);
    assert BackwardFrom(before, i, g).0 + later == earlier + ([s] + later);
  }

  /** A backward pass from `i` through a layer that passes `h` on continues from `i - 1` with `h`. */
  lemma BackwardFromOk(states: seq<LayerState>, i: nat, g: Matrix, s: LayerState, h: Matrix)
    requires 0 < i <= |states| && BackwardDefinedFrom(states, i, g)
    requires LayerBackward(states[i - 1], g) == (s, Ok(h))
    ensures BackwardDefinedFrom(states, i - 1, h)
    ensures BackwardFrom(states, i, g) == (BackwardFrom(states, i - 1, h).0 + [s], BackwardFrom(states, i - 1, h).1)
  {
  }

  /** After a step at layer `k`, the states from `k` on are the new state and the old later ones. */
  lemma StepFrameSuffix(before: seq<LayerState>, after: seq<LayerState>, k: nat, s: LayerState)
    requires StepFrame(before, after, k, s)
    ensures after[k..] == [s] + before[k + 1..]
  {
    assert forall j :: 0 <= j < |after| - k ==> after[k..][j] == ([s] + before[k + 1..])[j];
  }

  /** One load step: layer `i` has read its record, and the later layers read on from `rest`. */
  lemma LoadStep(before: seq<LayerState>, after: seq<LayerState>, i: nat, source: seq<Token>, s: LayerState, rest: seq<Token>)
    requires i < |before| && LoadDefinedFrom(before, i, source)
    requires LayerLoad(before[i], source) == (s, rest) && StepFrame(before, after, i, s)
    ensures LoadDefinedFrom(after, i + 1, rest)
    ensures before[..i] + LoadFrom(before, i, source).0 == after[..i + 1] + LoadFrom(after, i + 1, rest).0
    ensures LoadFrom(before, i, source).1 == LoadFrom(after, i + 1, rest).1
  {
    LoadFromNext(before, i, source, s, rest);
    assert forall j :: i + 1 <= j < |before| ==> before[j] == after[j];
    LoadFromAgree(before, after, i + 1, rest);
    StepFramePrefix(before, after, i, s);
    AppendAssociative(before[..i], [s], LoadFrom(before, i + 1, rest).0);
  }

  /** Loading from `i` is layer `i` reading its record, then the later layers reading on. */
  lemma LoadFromNext(states: seq<LayerState>, i: nat, source: seq<Token>, s: LayerState, rest: seq<Token>)
    requires i < |states| && LoadDefinedFrom(states, i, source) && LayerLoad(states[i], source) == (s, rest)
    ensures LoadDefinedFrom(states, i + 1, rest)
    ensures LoadFrom(states, i, source) == ([s] + LoadFrom(states, i + 1, rest).0, LoadFrom(states, i + 1, rest).1)
  {
  }

  /** The layer a load from `i` reaches first finds a record of its shape. */
  lemma LoadFirstDefined(states: seq<LayerState>, i: nat, source: seq<Token>)
    requires i < |states| && LoadDefinedFrom(states, i, source)
    ensures CanLoad(states[i], source)
  {
  }


  // ---------------------------------------------------------------------------------------------
  // The container

  class NeuralNetwork {
    var layers: seq<Layer>

    /** The objects of the layers. */
    ghost function Repr(): set<object>
      reads this
    {
      set j | 0 <= j < |layers| :: layers[j].Obj()
    }

    /** No object is added twice, so a call on one layer changes no other layer. */
    ghost predicate Valid()
      reads this
    {
      forall a, b :: 0 <= a < b < |layers| ==> layers[a].Obj() != layers[b].Obj()
    }

    ghost function States(): (r: seq<LayerState>)
      reads this, Repr()
      ensures |r| == |layers|
    {
      seq(|layers|, j requires 0 <= j < |layers| reads this, Repr() => layers[j].State())
    }

    constructor ()
      ensures Valid() && layers == []
    {
      layers := [];
    }

    /** Appends `layer` after the existing layers, which keep their order. */
    method AddLayer(layer: Layer)
      requires Valid() && layer.Obj() !in Repr()
      modifies this
      ensures Valid() && layers == old(layers) + [layer]
    {
      layers := layers + [layer];
    }

    /** Layer `i`'s forward pass; no other layer changes. */
    method ForwardLayer(i: nat, x: Matrix, exp: real -> real) returns (out: Result<Matrix>)
      requires Valid() && i < |layers| && PositiveExp(exp) && CanForward(States()[i], x)
      modifies layers[i].Obj()
      ensures Valid() && layers == old(layers)
      ensures StepFrame(old(States()), States(), i, LayerForward(old(States())[i], x, exp).0)
      ensures out == LayerForward(old(States())[i], x, exp).1
    {
      out := layers[i].Forward(x, exp);
      assert forall j :: 0 <= j < |layers| && j != i ==> layers[j].Obj() != layers[i].Obj();
    }

    /** Layer `i`'s backward pass; no other layer changes. */
    method BackwardLayer(i: nat, g: Matrix) returns (out: Result<Matrix>)
      requires Valid() && i < |layers| && CanBackward(States()[i], g)
      modifies layers[i].Obj()
      ensures Valid() && layers == old(layers)
      ensures StepFrame(old(States()), States(), i, LayerBackward(old(States())[i], g).0)
      ensures out == LayerBackward(old(States())[i], g).1
    {
      out := layers[i].Backward(g);
      assert forall j :: 0 <= j < |layers| && j != i ==> layers[j].Obj() != layers[i].Obj();
    }

    /** Layer `i` reads its record; no other layer changes. */
    method LoadLayer(i: nat, source: seq<Token>) returns (rest: seq<Token>)
      requires Valid() && i < |layers| && CanLoad(States()[i], source)
      modifies layers[i].Obj()
      ensures Valid() && layers == old(layers)
      ensures StepFrame(old(States()), States(), i, LayerLoad(old(States())[i], source).0)
      ensures rest == LayerLoad(old(States())[i], source).1
    {
      rest := layers[i].Load(source);
      assert forall j :: 0 <= j < |layers| && j != i ==> layers[j].Obj() != layers[i].Obj();
    }

    /** Runs every layer's forward pass in order, each on the previous one's output. */
    method Forward(input: Matrix, exp: real -> real) returns (r: Result<Matrix>)
      requires Valid() && PositiveExp(exp) && ForwardDefinedFrom(States(), 0, input, exp)
      modifies Repr()
      ensures (States(), r) == ForwardFrom(old(States()), 0, input, exp)
    {
      var output := input;
      var i := 0;
      ghost var states := States();
      ghost var spec := ForwardFrom(states, 0, input, exp);
      assert spec.0 == states[..0] + spec.0;
      while i < |layers|
        invariant 0 <= i <= |layers| && Valid() && states == States()
        invariant ForwardDefinedFrom(states, i, output, exp)
        invariant spec.0 == states[..i] + ForwardFrom(states, i, output, exp).0
        invariant spec.1 == ForwardFrom(states, i, output, exp).1
      {
        ForwardFirstDefined(states, i, output, exp);
        var out := ForwardLayer(i, output, exp);
        ghost var after := States();
        if out.Err? {
          ForwardStepErr(states, after, i, output, exp, after[i], out);
          return out;
        }
        ForwardStepOk(states, after, i, output, exp, after[i], out.value);
        states := after;
        output := out.value;
        i := i + 1;
      }
      r := Ok(output);
      assert states[..i] == states && spec.0 == states && spec.1 == r;
    }

    /** Runs every layer's backward pass from last to first, each on the gradient the next layer
        returned; the first layer's gradient is discarded. */
    method Backward(gradient: Matrix) returns (r: Result<()>)
      requires Valid() && BackwardDefinedFrom(States(), |layers|, gradient)
      modifies Repr()
      ensures States() == BackwardFrom(old(States()), |layers|, gradient).0
      ensures r == Outcome(BackwardFrom(old(States()), |layers|, gradient).1)
    {
      var g := gradient;
      var i := |layers|;
      ghost var states := States();
      ghost var spec := BackwardFrom(states, |layers|, gradient);
      assert spec.0 == spec.0 + states[|layers|..];
      while i > 0
        invariant 0 <= i <= |layers| && Valid() && states == States()
        invariant BackwardDefinedFrom(states, i, g)
        invariant spec.0 == BackwardFrom(states, i, g).0 + states[i..]
        invariant spec.1 == BackwardFrom(states, i, g).1
      {
        BackwardFirstDefined(states, i, g);
        var out := BackwardLayer(i - 1, g);
        ghost var after := States();
        if out.Err? {
          BackwardStepErr(states, after, i, g, after[i - 1], out);
          return Err(out.error);
        }
        BackwardStepOk(states, after, i, g, after[i - 1], out.value);
        states := after;
        g := out.value;
        i := i - 1;
      }
      r := Ok(());
      assert states[0..] == states && spec.0 == states && spec.1.Ok?;
    }

    /** Updates every layer once, in order. */
    method Update(optimizer: SGDOptimizer)
      requires Valid() && forall j :: 0 <= j < |layers| ==> CanUpdate(layers[j].State())
      modifies Repr()
      ensures States() == UpdateAll(old(States()), optimizer.learningRate)
    {
      var i := 0;
      while i < |layers|
        invariant 0 <= i <= |layers| && Valid()
        invariant forall j :: 0 <= j < i ==> layers[j].State() == LayerUpdate(old(layers[j].State()), optimizer.learningRate)
        invariant forall j :: i <= j < |layers| ==> layers[j].State() == old(layers[j].State())
      {
        layers[i].Update(optimizer);
        i := i + 1;
      }
    }

    /** Writes every layer's record, in order. */
    method Save() returns (record: seq<Token>)
      requires forall j :: 0 <= j < |layers| ==> CanSave(layers[j].State())
      ensures record == SaveAll(States())
    {
      record := [];
      var i := 0;
      ghost var states := States();
      while i < |layers|
        invariant 0 <= i <= |layers| && states == States() && record == SaveAll(states[..i])
      {
        var part := layers[i].Save();
        assert states[i] == layers[i].State();
        SaveAllSnoc(states, i);
        record := record + part;
        i := i + 1;
      }
      assert states[..i] == states;
    }

    /** Lets every layer read its record from the stream, in order; returns what is left unread. */
    method Load(source: seq<Token>) returns (rest: seq<Token>)
      requires Valid() && LoadDefinedFrom(States(), 0, source)
      modifies Repr()
      ensures (States(), rest) == LoadFrom(old(States()), 0, source)
    {
      rest := source;
      var i := 0;
      ghost var states := States();
      ghost var spec := LoadFrom(states, 0, source);
      assert spec.0 == states[..0] + spec.0;
      while i < |layers|
        invariant 0 <= i <= |layers| && Valid() && states == States()
        invariant LoadDefinedFrom(states, i, rest)
        invariant spec.0 == states[..i] + LoadFrom(states, i, rest).0
        invariant spec.1 == LoadFrom(states, i, rest).1
      {
        LoadFirstDefined(states, i, rest);
        var unread := LoadLayer(i, rest);
        ghost var after := States();
        LoadStep(states, after, i, rest, after[i], unread);
        states := after;
        rest := unread;
        i := i + 1;
      }
      assert states[..i] == states && spec.0 == states && spec.1 == rest;
    }
  }

  // ---------------------------------------------------------------------------------------------
  // Properties of the passes

  /** A network without layers returns its input and has no state to change. */
  lemma EmptyNetworkForward(x: Matrix, exp: real -> real)
    requires PositiveExp(exp)
    ensures ForwardDefinedFrom([], 0, x, exp) && ForwardFrom([], 0, x, exp) == ([], Ok(x))
  {
  }

  /** Forward through `a + b` is forward through `a`, then, unless that failed, forward through `b`
      on its output: the network computes `layer_n(...layer_1(input))`. */
  lemma {:induction false} ForwardAppend(a: seq<LayerState>, b: seq<LayerState>, i: nat, x: Matrix, exp: real -> real)
    requires i <= |a| && PositiveExp(exp) && ForwardDefinedFrom(a + b, i, x, exp)
    ensures ForwardDefinedFrom(a, i, x, exp)
    ensures var (sa, ra) := ForwardFrom(a, i, x, exp);
      if ra.Err? then ForwardFrom(a + b, i, x, exp) == (sa + b, ra)
      else ForwardDefinedFrom(b, 0, ra.value, exp) &&
           ForwardFrom(a + b, i, x, exp) == (sa + ForwardFrom(b, 0, ra.value, exp).0, ForwardFrom(b, 0, ra.value, exp).1)
    decreases |a| - i
  {
    if i == |a| {
      ForwardShift(a, b, 0, x, exp);
      var fb := ForwardFrom(b, 0, x, exp);
      assert [] + fb.0 == fb.0;
    } else {
      assert (a + b)[i] == a[i];
      var (s, out) := LayerForward(a[i], x, exp);
      if out.Err? {
        ForwardAppendErr(a, b, i, x, exp, s, out);
      } else {
        ForwardAppend(a, b, i + 1, out.value, exp);
        var (sa, ra) := ForwardFrom(a, i + 1, out.value, exp);
        ForwardAppendOk(a, b, i, x, exp, s, out.value, sa, ra);
      }
    }
  }

  /** `ForwardAppend` when layer `i` of `a` fails. */
  lemma ForwardAppendErr(a: seq<LayerState>, b: seq<LayerState>, i: nat, x: Matrix, exp: real -> real, s: LayerState, out: Result<Matrix>)
    requires i < |a| && PositiveExp(exp) && ForwardDefinedFrom(a + b, i, x, exp)
    requires LayerForward(a[i], x, exp) == (s, out) && out.Err?
    ensures ForwardDefinedFrom(a, i, x, exp) && ForwardFrom(a, i, x, exp) == ([s] + a[i + 1..], out)
    ensures ForwardFrom(a + b, i, x, exp) == (([s] + a[i + 1..]) + b, out)
  {
    assert (a + b)[i] == a[i];
    assert (a + b)[i + 1..] == a[i + 1..] + b;
    assert [s] + (a[i + 1..] + b) == ([s] + a[i + 1..]) + b;
  }

  /** `ForwardAppend` when layer `i` of `a` passes `y` on, given the claim from layer `i + 1`. */
  lemma ForwardAppendOk(a: seq<LayerState>, b: seq<LayerState>, i: nat, x: Matrix, exp: real -> real,
                        s: LayerState, y: Matrix, sa: seq<LayerState>, ra: Result<Matrix>)
    requires i < |a| && PositiveExp(exp) && ForwardDefinedFrom(a + b, i, x, exp)
    requires LayerForward(a[i], x, exp) == (s, Ok(y))
    requires ForwardDefinedFrom(a, i + 1, y, exp) && ForwardFrom(a, i + 1, y, exp) == (sa, ra)
    requires ra.Err? ==> ForwardFrom(a + b, i + 1, y, exp) == (sa + b, ra)
    requires ra.Ok? ==> (ForwardDefinedFrom(b, 0, ra.value, exp) &&
      ForwardFrom(a + b, i + 1, y, exp) == (sa + ForwardFrom(b, 0, ra.value, exp).0, ForwardFrom(b, 0, ra.value, exp).1))
    ensures ForwardDefinedFrom(a, i, x, exp) && ForwardFrom(a, i, x, exp) == ([s] + sa, ra)
    ensures ra.Err? ==> ForwardFrom(a + b, i, x, exp) == (([s] + sa) + b, ra)
    ensures ra.Ok? ==> (ForwardDefinedFrom(b, 0, ra.value, exp) &&
      ForwardFrom(a + b, i, x, exp) == (([s] + sa) + ForwardFrom(b, 0, ra.value, exp).0, ForwardFrom(b, 0, ra.value, exp).1))
  {
    assert (a + b)[i] == a[i];
    if ra.Err? {
      assert [s] + (sa + b) == ([s] + sa) + b;
    } else {
      var fb := ForwardFrom(b, 0, ra.value, exp);
      assert [s] + (sa + fb.0) == ([s] + sa) + fb.0;
    }
  }

  /** Forward from layer `|a| + k` of `a + b` is forward from layer `k` of `b`. */
  lemma {:induction false} ForwardShift(a: seq<LayerState>, b: seq<LayerState>, k: nat, x: Matrix, exp: real -> real)
    requires k <= |b| && PositiveExp(exp) && ForwardDefinedFrom(a + b, |a| + k, x, exp)
    ensures ForwardDefinedFrom(b, k, x, exp) && ForwardFrom(a + b, |a| + k, x, exp) == ForwardFrom(b, k, x, exp)
    decreases |b| - k
  {
    if k < |b| {
      assert (a + b)[|a| + k] == b[k];
      var out := LayerForward(b[k], x, exp).1;
      if out.Ok? {
        ForwardShift(a, b, k + 1, out.value, exp);
      } else {
        assert (a + b)[|a| + k + 1..] == b[k + 1..];
      }
    }
  }

  /** Backward through the first `k` layers of `a + b` (k <= |a|) only sees `a`. */
  lemma BackwardPrefix(a: seq<LayerState>, b: seq<LayerState>, k: nat, g: Matrix)
    requires k <= |a| && BackwardDefinedFrom(a + b, k, g)
    ensures BackwardDefinedFrom(a, k, g) && BackwardFrom(a + b, k, g) == BackwardFrom(a, k, g)
  {
    BackwardFromAgree(a + b, a, k, g);
  }

  /** Backward through `a + b` is backward through `b`, last layer first, then, unless that failed,
      backward through `a` with the gradient `b`'s first layer returned. */
  lemma {:induction false} BackwardAppend(a: seq<LayerState>, b: seq<LayerState>, k: nat, g: Matrix)
    requires k <= |b| && BackwardDefinedFrom(a + b, |a| + k, g)
    ensures BackwardDefinedFrom(b, k, g)
    ensures var (sb, rb) := BackwardFrom(b, k, g);
      if rb.Err? then BackwardFrom(a + b, |a| + k, g) == (a + sb, rb)
      else BackwardDefinedFrom(a, |a|, rb.value) &&
           BackwardFrom(a + b, |a| + k, g) == (BackwardFrom(a, |a|, rb.value).0 + sb, BackwardFrom(a, |a|, rb.value).1)
  {
    if k == 0 {
      BackwardPrefix(a, b, |a|, g);
      var fa := BackwardFrom(a, |a|, g);
      assert fa.0 + [] == fa.0;
    } else {
      assert (a + b)[|a| + k - 1] == b[k - 1];
      var (s, out) := LayerBackward(b[k - 1], g);
      if out.Err? {
        assert (a + b)[..|a| + k - 1] == a + b[..k - 1];
        assert (a + b[..k - 1]) + [s] == a + (b[..k - 1] + [s]);
      } else {
        BackwardAppend(a, b, k - 1, out.value);
        var (sb, rb) := BackwardFrom(b, k - 1, out.value);
        assert BackwardFrom(b, k, g) == (sb + [s], rb);
        if rb.Err? {
          assert (a + sb) + [s] == a + (sb + [s]);
        } else {
          var fa := BackwardFrom(a, |a|, rb.value);
          assert (fa.0 + sb) + [s] == fa.0 + (sb + [s]);
        }
      }
    }
  }

  /** An update keeps every layer's shape, so the updated network still loads the files it saves. */
  lemma UpdatePreservesShape(states: seq<LayerState>, lr: real)
    requires forall j :: 0 <= j < |states| ==> CanUpdate(states[j])
    ensures forall j :: 0 <= j < |states| ==> SameShape(states[j], UpdateAll(states, lr)[j])
  {
  }

  lemma RecordsAppend(a: seq<LayerState>, b: seq<LayerState>)
    requires forall j :: 0 <= j < |a| ==> CanSave(a[j])
    requires forall j :: 0 <= j < |b| ==> CanSave(b[j])
    ensures forall j :: 0 <= j < |a + b| ==> CanSave((a + b)[j])
    ensures Records(a + b) == Records(a) + Records(b)
  {
    assert forall j :: 0 <= j < |a + b| ==> (a + b)[j] == if j < |a| then a[j] else b[j - |a|];
  }

  /** The saved file of `a + b` is the file of `a` followed by the file of `b`. */
  lemma SaveAllAppend(a: seq<LayerState>, b: seq<LayerState>)
    requires forall j :: 0 <= j < |a| ==> CanSave(a[j])
    requires forall j :: 0 <= j < |b| ==> CanSave(b[j])
    ensures forall j :: 0 <= j < |a + b| ==> CanSave((a + b)[j])
    ensures SaveAll(a + b) == SaveAll(a) + SaveAll(b)
  {
    RecordsAppend(a, b);
    ConcatAppend(Records(a), Records(b));
  }

  /** An activation layer adds nothing to the saved file, wherever it stands. */
  lemma ActivationSavesNothing(a: seq<LayerState>, s: LayerState, b: seq<LayerState>)
    requires forall j :: 0 <= j < |a| ==> CanSave(a[j])
    requires forall j :: 0 <= j < |b| ==> CanSave(b[j])
    requires s.ActivationState?
    ensures forall j :: 0 <= j < |a + [s] + b| ==> CanSave((a + [s] + b)[j])
    ensures SaveAll(a + [s] + b) == SaveAll(a + b)
  {
    SaveAllAppend(a, [s]);
    assert SaveAll([s]) == [] by {
      assert Records([s]) == [[]];
      assert Concat<Token>([[]]) == Concat<Token>([]) + [];
    }
    assert a + [s] + b == (a + [s]) + b;
    SaveAllAppend(a + [s], b);
    SaveAllAppend(a, b);
    var front := SaveAll(a);
    assert front + [] == front;
  }

  /** Every layer of `target` after loading the parameters of the matching layer of `saved`. */
  function RestoredAll(target: seq<LayerState>, saved: seq<LayerState>): (r: seq<LayerState>)
    requires |saved| == |target| && forall j :: 0 <= j < |target| ==> target[j].DenseState? == saved[j].DenseState?
    ensures |r| == |target| && forall j :: 0 <= j < |target| ==> r[j] == Restored(target[j], saved[j])
  {
    seq(|target|, j requires 0 <= j < |target| => Restored(target[j], saved[j]))
  }

  /** Two networks with the same sequence of layer kinds and Dense shapes. */
  predicate SameArchitecture(saved: seq<LayerState>, target: seq<LayerState>) {
    |saved| == |target| && forall j :: 0 <= j < |target| ==> SameShape(saved[j], target[j])
  }

  /** The file of a non-empty network is its first layer's record, then the file of the rest. */
  lemma SaveAllCons(states: seq<LayerState>)
    requires states != [] && forall j :: 0 <= j < |states| ==> CanSave(states[j])
    ensures forall j :: 0 <= j < |states| - 1 ==> CanSave(states[1..][j])
    ensures SaveAll(states) == LayerRecord(states[0]) + SaveAll(states[1..])
  {
    var parts := Records(states);
    assert parts[1..] == Records(states[1..]);
    ConcatCons(parts);
  }

  /** Loading from layer `i` on is loading layer `i`, then the later layers from what it left. */
  lemma LoadFromCons(states: seq<LayerState>, i: nat, source: seq<Token>, loaded: LayerState, after: seq<Token>,
                     later: seq<LayerState>, rest: seq<Token>)
    requires i < |states| && CanLoad(states[i], source) && LayerLoad(states[i], source) == (loaded, after)
    requires LoadDefinedFrom(states, i + 1, after) && LoadFrom(states, i + 1, after) == (later, rest)
    ensures LoadDefinedFrom(states, i, source)
    ensures LoadFrom(states, i, source) == ([loaded] + later, rest)
  {
  }

  /** Layer `i` of a network of the same architecture reads back layer `i`'s record and leaves
      the records of the later layers. */
  lemma SavedRecordLoads(saved: seq<LayerState>, target: seq<LayerState>, i: nat, rest: seq<Token>)
    requires SameArchitecture(saved, target) && i < |target|
    requires forall j :: 0 <= j < |saved| ==> CanSave(saved[j])
    ensures CanLoad(target[i], SaveAll(saved[i..]) + rest)
    ensures LayerLoad(target[i], SaveAll(saved[i..]) + rest) == (Restored(target[i], saved[i]), SaveAll(saved[i + 1..]) + rest)
  {
    var record, tail := LayerRecord(saved[i]), SaveAll(saved[i + 1..]);
    SaveAllFrom(saved, i);
    AppendAssociative(record, tail, rest);
    LayerRoundTrip(saved[i], target[i], tail + rest);
  }

  /** The file of layers `i..` is layer `i`'s record, then the file of the later layers. */
  lemma SaveAllFrom(saved: seq<LayerState>, i: nat)
    requires i < |saved| && forall j :: 0 <= j < |saved| ==> CanSave(saved[j])
    ensures SaveAll(saved[i..]) == LayerRecord(saved[i]) + SaveAll(saved[i + 1..])
  {
    var here := saved[i..];
    SaveAllCons(here);
    assert here[0] == saved[i] && here[1..] == saved[i + 1..];
  }

  lemma AppendAssociative<T>(a: seq<T>, b: seq<T>, c: seq<T>)
    ensures (a + b) + c == a + (b + c)
  {
  }

  /** The restored layers from `i` on are layer `i` restored, then the later ones. */
  lemma RestoredAllCons(target: seq<LayerState>, saved: seq<LayerState>, i: nat)
    requires SameArchitecture(saved, target) && i < |target|
    ensures RestoredAll(target, saved)[i..] == [Restored(target[i], saved[i])] + RestoredAll(target, saved)[i + 1..]
  {
    var restored := RestoredAll(target, saved);
    assert restored[i..] == [restored[i]] + restored[i + 1..];
  }

  /** Loading layers `i..` from the file of layers `i..` of a network of the same architecture. */
  lemma {:induction false} LoadFromSaved(saved: seq<LayerState>, target: seq<LayerState>, i: nat, rest: seq<Token>)
    requires SameArchitecture(saved, target) && i <= |target|
    requires forall j :: 0 <= j < |saved| ==> CanSave(saved[j])
    ensures LoadDefinedFrom(target, i, SaveAll(saved[i..]) + rest)
    ensures LoadFrom(target, i, SaveAll(saved[i..]) + rest) == (RestoredAll(target, saved)[i..], rest)
    decreases |target| - i
  {
    if i < |target| {
      LoadFromSaved(saved, target, i + 1, rest);
      SavedRecordLoads(saved, target, i, rest);
      var source, after := SaveAll(saved[i..]) + rest, SaveAll(saved[i + 1..]) + rest;
      var later := RestoredAll(target, saved)[i + 1..];
      LoadFromCons(target, i, source, Restored(target[i], saved[i]), after, later, rest);
      RestoredAllCons(target, saved, i);
    } else {
      assert saved[i..] == [];
      assert SaveAll(saved[i..]) + rest == rest;
      assert RestoredAll(target, saved)[i..] == [];
    }
  }

  /** Saving a network and loading the file into a network of the same architecture gives every
      Dense layer the saved weights and biases, and reads exactly the saved tokens. */
  lemma NetworkRoundTrip(saved: seq<LayerState>, target: seq<LayerState>, rest: seq<Token>)
    requires SameArchitecture(saved, target)
    requires forall j :: 0 <= j < |saved| ==> CanSave(saved[j])
    ensures LoadDefinedFrom(target, 0, SaveAll(saved) + rest)
    ensures LoadFrom(target, 0, SaveAll(saved) + rest) == (RestoredAll(target, saved), rest)
  {
    LoadFromSaved(saved, target, 0, rest);
    assert saved[0..] == saved;
    assert RestoredAll(target, saved)[0..] == RestoredAll(target, saved);
  }

  /** A network that loads the file it saved ends exactly where it started. */
  lemma SelfRoundTrip(states: seq<LayerState>, rest: seq<Token>)
    requires forall j :: 0 <= j < |states| ==> Shaped(states[j]) && CanSave(states[j])
    ensures LoadDefinedFrom(states, 0, SaveAll(states) + rest)
    ensures LoadFrom(states, 0, SaveAll(states) + rest) == (states, rest)
  {
    NetworkRoundTrip(states, states, rest);
    assert RestoredAll(states, states) == states;
  }
}
