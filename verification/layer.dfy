/** One dense layer of the network engine (Components/LayerOfNeurons.cs) and the
    per-layer training cache it produces (Components/WeightUpdateData.cs). */
module Layers {
  import opened Outcomes
  import opened Matrices
  import opened Transfer

  /** Weights are outputs × inputs; biases are absent (null) or one per output. */
  datatype Layer = Layer(weights: Mat, biases: Option<Vector>, transfer: TransferFunction)

  /** WeightUpdateData: the layer's input and the Jacobian of its transfer function. */
  datatype LayerCache = LayerCache(input: Vector, jacobian: Mat)

  /** The Gaussian draws one layer consumes: one sampler for the weights, one for the biases. */
  datatype LayerNoise = LayerNoise(weights: Sampler, biases: Sampler)

  /** Standard deviation of the initial weights and biases. */
  const InitialStdDev: real := 0.1

  /** The bias vector, when present, has one entry per weight row. */
  predicate BiasFits(l: Layer) {
    l.biases.None? || |l.biases.value| == l.weights.rows
  }

  /** The WeightUpdateData constructor: element-wise copies of the input vector
      and of the Jacobian, in storage of their own. */
  function NewCache(input: Vector, jacobian: Mat): (c: LayerCache)
    ensures |c.input| == |input| && forall i :: 0 <= i < |input| ==> c.input[i] == input[i]
    ensures SameShape(c.jacobian, jacobian)
    ensures forall i, j :: 0 <= i < jacobian.rows && 0 <= j < jacobian.cols ==>
              c.jacobian.cells[i][j] == jacobian.cells[i][j]
  {
    LayerCache(seq(|input|, i requires 0 <= i < |input| => input[i]),
      Matrix(jacobian.rows, jacobian.cols,
        seq(jacobian.rows, i requires 0 <= i < jacobian.rows =>
          seq(jacobian.cols, j requires 0 <= j < jacobian.cols => jacobian.cells[i][j]))))
  }

  /** The random constructor: a totalOutputs × totalInputs weight matrix and, when
      hasBias holds, a bias per output, all drawn from N(0, 0.1). A negative
      dimension makes the array allocation fail. */
  function NewRandom(totalInputs: int, totalOutputs: int, hasBias: bool, tf: TransferFunction,
                     noise: LayerNoise): (r: Result<Layer>)
    ensures r.Err? <==> totalInputs < 0 || totalOutputs < 0
    ensures r.Err? ==> r.error == Overflow
    ensures r.Ok? ==> r.value.weights.rows == totalOutputs && r.value.weights.cols == totalInputs
    ensures r.Ok? ==> (r.value.biases.Some? <==> hasBias) && BiasFits(r.value)
    ensures r.Ok? ==> r.value.transfer == tf
    ensures r.Ok? ==> forall i, j :: 0 <= i < totalOutputs && 0 <= j < totalInputs ==>
              r.value.weights.cells[i][j] == noise.weights(i, j, 0.0, InitialStdDev)
    ensures r.Ok? && hasBias ==> forall i :: 0 <= i < totalOutputs ==>
              r.value.biases.value[i] == noise.biases(0, i, 0.0, InitialStdDev)
  {
    if totalInputs < 0 || totalOutputs < 0 then Err(Overflow)
    else
      var w := Matrix(totalOutputs, totalInputs,
        seq(totalOutputs, i requires 0 <= i < totalOutputs =>
          seq(totalInputs, j requires 0 <= j < totalInputs => noise.weights(i, j, 0.0, InitialStdDev))));
      var b := if hasBias then Some(seq(totalOutputs, i requires 0 <= i < totalOutputs =>
                                         noise.biases(0, i, 0.0, InitialStdDev)))
               else None;
      Ok(Layer(w, b, tf))
  }

  /** The copy constructor: an element-wise equal layer with the same transfer
      function, rejected when the biases are present with the wrong length. */
  function Copy(source: Layer): (r: Result<Layer>)
    ensures r.Err? <==> !BiasFits(source)
    ensures r.Err? ==> r.error == InvalidArgument
    ensures r.Ok? ==> r.value == source
  {
    var w := Matrix(source.weights.rows, source.weights.cols,
      seq(source.weights.rows, i requires 0 <= i < source.weights.rows =>
        seq(source.weights.cols, j requires 0 <= j < source.weights.cols => source.weights.cells[i][j])));
    assert w.cells == source.weights.cells by {
      forall i | 0 <= i < source.weights.rows
        ensures w.cells[i] == source.weights.cells[i]
      {
        assert |w.cells[i]| == |source.weights.cells[i]|;
      }
    }
    match source.biases
    case None => Ok(Layer(w, None, source.transfer))
    case Some(b) =>
      if source.weights.rows != |b| then Err(InvalidArgument)
      else
        var b' := seq(|b|, i requires 0 <= i < |b| => b[i]);
        assert b' == b;
        Ok(Layer(w, Some(b'), source.transfer))
  }

  /** The explicit-value constructor used by the tests: copies the weights and the
      biases (absent stays absent) and checks nothing. */
  function Explicit(weights: Mat, biases: Option<Vector>, tf: TransferFunction): (l: Layer)
    ensures SameShape(l.weights, weights)
    ensures forall i, j :: 0 <= i < weights.rows && 0 <= j < weights.cols ==>
              l.weights.cells[i][j] == weights.cells[i][j]
    ensures l.biases.None? <==> biases.None?
    ensures biases.Some? ==> |l.biases.value| == |biases.value|
    ensures biases.Some? ==> forall i :: 0 <= i < |biases.value| ==> l.biases.value[i] == biases.value[i]
    ensures l.transfer == tf
  {
    var w := Matrix(weights.rows, weights.cols,
      seq(weights.rows, i requires 0 <= i < weights.rows =>
        seq(weights.cols, j requires 0 <= j < weights.cols => weights.cells[i][j])));
    var b := match biases
      case None => None
      case Some(v) => Some(seq(|v|, i requires 0 <= i < |v| => v[i]));
    Layer(w, b, tf)
  }

  /** The explicit constructor accepts a bias length the copy constructor rejects:
      copying its result fails exactly when the lengths disagree. */
  lemma CopyOfExplicit(weights: Mat, biases: Option<Vector>, tf: TransferFunction)
    ensures Copy(Explicit(weights, biases, tf)).Err? <==>
              biases.Some? && |biases.value| != weights.rows
  {
  }

  /** The pre-activation `W·x (+ b)` element by element. */
  function PreActivation(l: Layer, x: Vector): (pre: Vector)
    requires |x| == l.weights.cols && BiasFits(l)
    ensures |pre| == l.weights.rows
  {
    seq(l.weights.rows, i requires 0 <= i < l.weights.rows =>
      Dot(l.weights.cells[i], x) + (if l.biases.Some? then l.biases.value[i] else 0.0))
  }

  /** The square matrix with d on the diagonal and zeros elsewhere. */
  function Diagonal(d: Vector): (m: Mat)
    ensures m.rows == |d| && m.cols == |d|
    ensures forall i :: 0 <= i < |d| ==> m.cells[i][i] == d[i]
    ensures forall i, j :: 0 <= i < |d| && 0 <= j < |d| && i != j ==> m.cells[i][j] == 0.0
  {
    Matrix(|d|, |d|, seq(|d|, i requires 0 <= i < |d| => seq(|d|, j requires 0 <= j < |d| => if i == j then d[i] else 0.0)))
  }

  /** A square matrix that is zero off its diagonal. */
  predicate IsDiagonal(m: Mat) {
    m.rows == m.cols && forall i, j :: 0 <= i < m.rows && 0 <= j < m.cols && i != j ==> m.cells[i][j] == 0.0
  }

  /** The pre-activation as Calculate computes it: the product of W with the
      column view of x, read back as a vector, plus the biases when present. */
  function ComputePreActivation(l: Layer, x: Vector): (r: Result<Vector>)
    ensures r.Err? <==> |x| != l.weights.cols || !BiasFits(l)
    ensures r.Err? ==> r.error == DimensionMismatch
    ensures r.Ok? ==> r.value == PreActivation(l, x)
  {
    var product :- Multiply(l.weights, ColumnView(x));
    ToVectorOfColumn(product);
    var column := ToVector(product).value;
    var pre :- if l.biases.Some? then AddVec(column, l.biases.value) else Ok(column);
    assert pre == PreActivation(l, x) by {
      assert Column(ColumnView(x), 0) == x;
    }
    Ok(pre)
  }

  /** Calculate: the pre-activation is computed as the product of W with the
      column view of x, read back as a vector, plus the biases when present; the
      output applies the transfer function element-wise, and the cache holds a
      copy of x and the diagonal Jacobian of the transfer function at the
      pre-activation. */
  function Calculate(l: Layer, x: Vector, exp: ExpFn): (r: Result<(Vector, LayerCache)>)
    ensures r.Err? <==> |x| != l.weights.cols || !BiasFits(l)
    ensures r.Err? ==> r.error == DimensionMismatch
    ensures r.Ok? ==> |r.value.0| == l.weights.rows && r.value.1.input == x
    ensures r.Ok? ==> forall i :: 0 <= i < l.weights.rows ==>
              r.value.0[i] == Value(l.transfer, exp, PreActivation(l, x)[i])
    ensures r.Ok? ==> r.value.1.jacobian.rows == l.weights.rows && IsDiagonal(r.value.1.jacobian)
    ensures r.Ok? ==> forall i :: 0 <= i < l.weights.rows ==>
              r.value.1.jacobian.cells[i][i] == Derivative(l.transfer, exp, PreActivation(l, x)[i])
  {
    var pre :- ComputePreActivation(l, x);
    var output := seq(|pre|, i requires 0 <= i < |pre| => Value(l.transfer, exp, pre[i]));
    var jacobian := Diagonal(seq(|pre|, i requires 0 <= i < |pre| => Derivative(l.transfer, exp, pre[i])));
    Ok((output, NewCache(x, jacobian)))
  }

  /** Mutate: the biases (when present) and then the weights go through
      MutateMatrix with the same bounds; shapes, the absence of biases and the
      transfer function are kept. Bad arguments are rejected before anything changes. */
  function Mutate(l: Layer, lower: real, upper: real, stdDev: real, noise: LayerNoise): (r: Result<Layer>)
    ensures r.Err? <==> stdDev <= 0.0 || lower >= upper
    ensures r.Err? ==> r.error == InvalidArgument
    ensures r.Ok? ==> SameShape(r.value.weights, l.weights) && r.value.transfer == l.transfer
    ensures r.Ok? ==> (r.value.biases.Some? <==> l.biases.Some?)
    ensures r.Ok? && l.biases.Some? ==> |r.value.biases.value| == |l.biases.value|
    ensures r.Ok? ==> r.value.weights == MutateMatrix(l.weights, lower, upper, stdDev, noise.weights).value
    ensures r.Ok? && l.biases.Some? ==>
              r.value.biases.value == MutateVector(l.biases.value, lower, upper, stdDev, noise.biases).value
  {
    var b :- match l.biases
      case None => Ok(None)
      case Some(v) =>
        var v' :- MutateVector(v, lower, upper, stdDev, noise.biases);
        Ok(Some(v'));
    var w :- MutateMatrix(l.weights, lower, upper, stdDev, noise.weights);
    Ok(Layer(w, b, l.transfer))
  }

  /** A layer that mutates successfully still has biases that fit. */
  lemma MutateKeepsBiasFit(l: Layer, lower: real, upper: real, stdDev: real, noise: LayerNoise)
    requires BiasFits(l)
    ensures Mutate(l, lower, upper, stdDev, noise).Ok? ==> BiasFits(Mutate(l, lower, upper, stdDev, noise).value)
  {
  }

  /** The unit-test fixture: weights [[3, 2]], bias [1.2] and input [−5, 6] give the
      pre-activation −1.8 and the output LogSigmoid(−1.8) = 1/(1 + e^1.8). */
  lemma SingleNeuronFixture(exp: ExpFn)
    ensures var l := Layer(Matrix(1, 2, [[3.0, 2.0]]), Some([1.2]), LogSigmoid);
            PreActivation(l, [-5.0, 6.0]) == [-1.8] &&
            Calculate(l, [-5.0, 6.0], exp).Ok? &&
            Calculate(l, [-5.0, 6.0], exp).value.0 == [1.0 / (1.0 + exp(1.8))]
  {
    var l := Layer(Matrix(1, 2, [[3.0, 2.0]]), Some([1.2]), LogSigmoid);
    var x := [-5.0, 6.0];
    assert l.weights.cells[0][..1][..0] == [] && x[..1][..0] == [];
    assert l.weights.cells[0][..1] == [3.0] && x[..1] == [-5.0];
    assert Dot(l.weights.cells[0], x) == -3.0;
    assert PreActivation(l, x) == [-1.8];
    var y := Calculate(l, x, exp).value.0;
    assert |y| == 1;
    assert y[0] == 1.0 / (1.0 + exp(-1.0 * -1.8));
  }
}
