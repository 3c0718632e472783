/** The feed-forward network of the engine (FeedForwardNetwork.cs): construction,
    the forward pass, back-propagation of the squared error, the gradient update,
    incremental and batch training, and mutation. The network is a value; every
    operation that changes it in place in the original returns the new network. */
module Networks {
  import opened Outcomes
  import opened Matrices
  import opened Transfer
  import opened Layers
  import opened Training

  /** The hidden layers, applied in order. */
  datatype Network = Network(layers: seq<Layer>)

  /** Maximum number of passes BatchTrain makes over the training set. */
  const MaxTries: nat := 1000000
  const DefaultUpperWeightLimit: real := 1.0
  const DefaultLowerWeightLimit: real := -1.0
  const DefaultMutateStdDev: real := 0.1
  const DefaultMinRSquare: real := 0.9
  const DefaultLearningRate: real := 0.1

  predicate RateInRange(rate: real) {
    -1.0 <= rate <= 1.0
  }

  /** The output width of each layer is the input width of the next. */
  predicate Chained(layers: seq<Layer>) {
    forall i :: 0 < i < |layers| ==> layers[i - 1].weights.rows == layers[i].weights.cols
  }

  /** Widths chain and every bias vector fits its layer. */
  predicate WellFormed(net: Network) {
    Chained(net.layers) && forall i :: 0 <= i < |net.layers| ==> BiasFits(net.layers[i])
  }

  predicate SameLayerShape(a: Layer, b: Layer) {
    && SameShape(a.weights, b.weights)
    && a.transfer == b.transfer
    && (a.biases.Some? <==> b.biases.Some?)
    && (a.biases.Some? ==> |a.biases.value| == |b.biases.value|)
  }

  /** Same layer count, and layer by layer the same shapes, bias presence and transfer function. */
  predicate SameNetShape(a: Network, b: Network) {
    |a.layers| == |b.layers| && forall i :: 0 <= i < |a.layers| ==> SameLayerShape(a.layers[i], b.layers[i])
  }

  lemma SameNetShapeSymmetric(a: Network, b: Network)
    requires SameNetShape(a, b)
    ensures SameNetShape(b, a)
  {
    forall i | 0 <= i < |b.layers|
      ensures SameLayerShape(b.layers[i], a.layers[i])
    {
      assert SameLayerShape(a.layers[i], b.layers[i]);
    }
  }

  lemma SameShapeKeepsWellFormed(a: Network, b: Network)
    requires WellFormed(a) && SameNetShape(a, b)
    ensures WellFormed(b)
  {
    forall i | 0 < i < |b.layers|
      ensures b.layers[i - 1].weights.rows == b.layers[i].weights.cols
    {
      assert SameLayerShape(a.layers[i - 1], b.layers[i - 1]);
      assert SameLayerShape(a.layers[i], b.layers[i]);
    }
    forall i | 0 <= i < |b.layers|
      ensures BiasFits(b.layers[i])
    {
      assert SameLayerShape(a.layers[i], b.layers[i]);
    }
  }

  // ================================================================ construction

  /** The public constructor. Layer 0 maps totalInputs to totalOutputs and every
      later layer maps totalOutputs to totalOutputs; nodesPerLayer is not used.
      Layer i consumes the draws `noise(i)`. A negative count or width fails the
      array allocation; a count of zero fails the store into layer 0. */
  function New(totalInputs: int, totalOutputs: int, totalHiddenLayers: int, nodesPerLayer: int,
               hasBias: bool, tf: TransferFunction, noise: nat -> LayerNoise): (r: Result<Network>)
    ensures r.Err? <==> totalHiddenLayers <= 0 || totalInputs < 0 || totalOutputs < 0
    ensures r.Ok? ==> |r.value.layers| == totalHiddenLayers && WellFormed(r.value)
    ensures r.Ok? ==> r.value.layers[0].weights.rows == totalOutputs
    ensures r.Ok? ==> r.value.layers[0].weights.cols == totalInputs
    ensures r.Ok? ==> forall i :: 0 < i < totalHiddenLayers ==>
              r.value.layers[i].weights.rows == totalOutputs && r.value.layers[i].weights.cols == totalOutputs
    ensures r.Ok? ==> forall i :: 0 <= i < totalHiddenLayers ==>
              (r.value.layers[i].biases.Some? <==> hasBias) && r.value.layers[i].transfer == tf
  {
    if totalHiddenLayers < 0 then Err(Overflow)
    else
      var first :- NewRandom(totalInputs, totalOutputs, hasBias, tf, noise(0));
      if totalHiddenLayers == 0 then Err(IndexOutOfRange)
      else
        var layers := [first] + HiddenLayers(totalHiddenLayers - 1, totalOutputs, hasBias, tf, noise);
        StackIsWellFormed(first, HiddenLayers(totalHiddenLayers - 1, totalOutputs, hasBias, tf, noise), totalOutputs);
        Ok(Network(layers))
  }

  /** The count layers after the first: width to width, layer i + 1 drawing `noise(i + 1)`. */
  function HiddenLayers(count: nat, width: nat, hasBias: bool, tf: TransferFunction, noise: nat -> LayerNoise)
    : (rest: seq<Layer>)
    ensures |rest| == count
    ensures forall k :: 0 <= k < count ==> rest[k] == SquareLayer(width, hasBias, tf, noise(k + 1))
  {
    seq(count, i requires 0 <= i < count => SquareLayer(width, hasBias, tf, noise(i + 1)))
  }

  /** A first layer with `width` outputs followed by width-to-width layers is well formed. */
  lemma StackIsWellFormed(first: Layer, rest: seq<Layer>, width: nat)
    requires first.weights.rows == width && BiasFits(first)
    requires forall k :: 0 <= k < |rest| ==>
               rest[k].weights.rows == width && rest[k].weights.cols == width && BiasFits(rest[k])
    ensures WellFormed(Network([first] + rest))
  {
    var layers := [first] + rest;
    assert forall i :: 0 < i < |layers| ==> layers[i] == rest[i - 1];
  }

  /** A randomly initialised layer from `width` inputs to `width` outputs. */
  function SquareLayer(width: nat, hasBias: bool, tf: TransferFunction, noise: LayerNoise): (l: Layer)
    ensures l.weights.rows == width && l.weights.cols == width
    ensures BiasFits(l) && (l.biases.Some? <==> hasBias) && l.transfer == tf
  {
    NewRandom(width, width, hasBias, tf, noise).value
  }

  /** nodesPerLayer has no influence on the network built. */
  lemma NodesPerLayerIsUnused(totalInputs: int, totalOutputs: int, totalHiddenLayers: int, n1: int, n2: int,
                              hasBias: bool, tf: TransferFunction, noise: nat -> LayerNoise)
    ensures New(totalInputs, totalOutputs, totalHiddenLayers, n1, hasBias, tf, noise)
         == New(totalInputs, totalOutputs, totalHiddenLayers, n2, hasBias, tf, noise)
  {
  }

  /** Layer-by-layer copy through the layer copy constructor. */
  function CopyLayers(ls: seq<Layer>): (r: Result<seq<Layer>>)
    ensures r.Err? <==> exists i :: 0 <= i < |ls| && !BiasFits(ls[i])
    ensures r.Ok? ==> r.value == ls
    decreases |ls|
  {
    if |ls| == 0 then Ok([])
    else
      var l :- Copy(ls[0]);
      var rest :- CopyLayers(ls[1..]);
      assert ls == [ls[0]] + ls[1..];
      assert forall i :: 0 < i < |ls| ==> ls[i] == ls[1..][i - 1];
      Ok([l] + rest)
  }

  /** The internal constructor from an array of layers: each layer is copied, so
      the network shares no storage with the array. */
  function FromLayers(ls: seq<Layer>): (r: Result<Network>)
    ensures r.Err? <==> exists i :: 0 <= i < |ls| && !BiasFits(ls[i])
    ensures r.Ok? ==> r.value.layers == ls
  {
    var copied :- CopyLayers(ls);
    Ok(Network(copied))
  }

  /** The copy constructor: same layer count, element-wise equal layers. A value
      copy shares nothing, so mutating it can never reach the original. */
  function CopyNetwork(net: Network): (r: Result<Network>)
    ensures WellFormed(net) ==> r == Ok(net)
    ensures r.Ok? ==> r.value == net
  {
    FromLayers(net.layers)
  }

  // ================================================================ forward pass

  /** The (input, output) chain of a forward pass: layer i maps the input stored in
      its cache to the next layer's input (the final output for the last layer). */
  ghost predicate IsTrace(layers: seq<Layer>, x: Vector, output: Vector, caches: seq<LayerCache>, exp: ExpFn) {
    && |caches| == |layers|
    && (|layers| == 0 ==> output == x)
    && (|layers| > 0 ==> caches[0].input == x)
    && forall i :: 0 <= i < |layers| ==>
         Calculate(layers[i], caches[i].input, exp)
           == Ok((if i + 1 < |layers| then caches[i + 1].input else output, caches[i]))
  }

  /** The private Calculate: feeds x through the layers in order, each output
      becoming the next input, and records one cache per layer in layer order. */
  function Forward(layers: seq<Layer>, x: Vector, exp: ExpFn): (r: Result<(Vector, seq<LayerCache>)>)
    ensures r.Ok? ==> IsTrace(layers, x, r.value.0, r.value.1, exp)
    decreases |layers|
  {
    if |layers| == 0 then Ok((x, []))
    else
      var step :- Calculate(layers[0], x, exp);
      var tail :- Forward(layers[1..], step.0, exp);
      var caches := [step.1] + tail.1;
      assert forall i :: 0 < i < |layers| ==> layers[i] == layers[1..][i - 1] && caches[i] == tail.1[i - 1];
      Ok((tail.0, caches))
  }

  /** The public Calculate: the forward pass with the caches discarded. The input
      width is not checked up front; a mismatch fails inside the first product. */
  function CalculateOutput(net: Network, x: Vector, exp: ExpFn): (r: Result<Vector>)
    ensures r.Ok? <==> Forward(net.layers, x, exp).Ok?
    ensures r.Ok? ==> r.value == Forward(net.layers, x, exp).value.0
  {
    var out :- Forward(net.layers, x, exp);
    Ok(out.0)
  }

  /** The input width a network expects. */
  predicate AcceptsInput(net: Network, x: Vector) {
    |net.layers| > 0 ==> |x| == net.layers[0].weights.cols
  }

  /** A well-formed network accepts every input of its declared width, and the
      output then has the width of the last layer. */
  lemma {:induction false} ForwardSucceeds(layers: seq<Layer>, x: Vector, exp: ExpFn)
    requires WellFormed(Network(layers)) && AcceptsInput(Network(layers), x)
    ensures Forward(layers, x, exp).Ok?
    ensures |layers| > 0 ==> |Forward(layers, x, exp).value.0| == layers[|layers| - 1].weights.rows
    decreases |layers|
  {
    if |layers| > 0 {
      var step := Calculate(layers[0], x, exp);
      assert step.Ok?;
      var tail := layers[1..];
      assert WellFormed(Network(tail)) by {
        assert forall i :: 0 <= i < |tail| ==> tail[i] == layers[i + 1];
      }
      if |tail| > 0 {
        assert layers[0].weights.rows == tail[0].weights.cols;
      }
      ForwardSucceeds(tail, step.value.0, exp);
    }
  }

  /** A successful forward pass passes through a chained network whose biases fit. */
  lemma {:induction false} ForwardOkMeansWellFormed(layers: seq<Layer>, x: Vector, exp: ExpFn)
    requires Forward(layers, x, exp).Ok?
    ensures WellFormed(Network(layers)) && AcceptsInput(Network(layers), x)
    ensures |layers| > 0 ==> |Forward(layers, x, exp).value.0| == layers[|layers| - 1].weights.rows
    decreases |layers|
  {
    if |layers| > 0 {
      var step := Calculate(layers[0], x, exp).value;
      var tail := layers[1..];
      ForwardOkMeansWellFormed(tail, step.0, exp);
      assert forall i :: 0 <= i < |tail| ==> tail[i] == layers[i + 1];
      if |tail| > 0 {
        assert layers[|layers| - 1] == tail[|tail| - 1];
      }
    }
  }

  // ================================================================ back-propagation

  /** Caches as a successful forward pass leaves them: one per layer, each holding
      an input of the layer's width and a diagonal Jacobian of its output width. */
  predicate CachesFit(layers: seq<Layer>, caches: seq<LayerCache>) {
    && Chained(layers)
    && |caches| == |layers|
    && forall k :: 0 <= k < |layers| ==>
         && |caches[k].input| == layers[k].weights.cols
         && caches[k].jacobian.rows == layers[k].weights.rows
         && IsDiagonal(caches[k].jacobian)
  }

  lemma {:induction false} ForwardCachesFit(layers: seq<Layer>, x: Vector, exp: ExpFn)
    requires Forward(layers, x, exp).Ok?
    ensures CachesFit(layers, Forward(layers, x, exp).value.1)
    decreases |layers|
  {
    ForwardOkMeansWellFormed(layers, x, exp);
    if |layers| > 0 {
      var step := Calculate(layers[0], x, exp).value;
      ForwardCachesFit(layers[1..], step.0, exp);
      var caches := Forward(layers, x, exp).value.1;
      var tail := Forward(layers[1..], step.0, exp).value.1;
      assert caches == [step.1] + tail;
      assert forall k :: 0 < k < |layers| ==> layers[k] == layers[1..][k - 1] && caches[k] == tail[k - 1];
    }
  }

  /** The last layer's sensitivity −2 · J · (expected − actual), read back as a vector. */
  function LastSensitivity(jacobian: Mat, expected: Vector, actual: Vector): (r: Result<Vector>)
    ensures r.Err? <==> |expected| != |actual| || jacobian.cols != |expected|
    ensures r.Ok? ==> |r.value| == jacobian.rows
  {
    var diff :- SubVec(expected, actual);
    var product :- Multiply(jacobian, ColumnView(diff));
    ToVector(Scale(-2.0, product))
  }

  /** An earlier layer's sensitivity (J · Wᵀ) · s from the next layer's weights W
      and sensitivity s, read back as a vector. */
  function BackSensitivity(jacobian: Mat, nextWeights: Mat, next: Vector): (r: Result<Vector>)
    ensures r.Err? <==> jacobian.cols != nextWeights.cols || nextWeights.rows != |next|
    ensures r.Ok? ==> |r.value| == jacobian.rows
  {
    var left :- Multiply(jacobian, Transpose(nextWeights));
    var product :- Multiply(left, ColumnView(next));
    ToVector(product)
  }

  /** The chain-rule value of the last layer's sensitivity: `−2 · f'(n_j) · (e_j − a_j)`. */
  function ChainLast(jacobian: Mat, expected: Vector, actual: Vector): (r: Vector)
    requires jacobian.rows <= jacobian.cols && jacobian.rows <= |expected| && jacobian.rows <= |actual|
    ensures |r| == jacobian.rows
  {
    seq(jacobian.rows, j requires 0 <= j < jacobian.rows =>
      -2.0 * jacobian.cells[j][j] * (expected[j] - actual[j]))
  }

  /** With a diagonal Jacobian the last sensitivity is the chain-rule value. */
  lemma LastSensitivityIsChainRule(jacobian: Mat, expected: Vector, actual: Vector)
    requires IsDiagonal(jacobian) && jacobian.rows == |expected| == |actual|
    ensures LastSensitivity(jacobian, expected, actual) == Ok(ChainLast(jacobian, expected, actual))
  {
    var diff := SubVec(expected, actual).value;
    var product := Multiply(jacobian, ColumnView(diff)).value;
    ProductWithColumnView(jacobian, diff);
    var scaled := Scale(-2.0, product);
    ToVectorOfColumn(scaled);
    var got := ToVector(scaled).value;
    var want := ChainLast(jacobian, expected, actual);
    forall j | 0 <= j < |expected|
      ensures got[j] == want[j]
    {
      DotWithDiagonalRow(jacobian.cells[j], diff, j);
      DoubledNegatedProduct(product.cells[j][0], jacobian.cells[j][j], diff[j]);
    }
    assert got == want;
  }

  lemma DoubledNegatedProduct(p: real, c: real, d: real)
    requires p == c * d
    ensures p * -2.0 == -2.0 * c * d
  {
  }

  /** J · Wᵀ for a diagonal J, written out: row j is column j of W scaled by J[j][j]. */
  function ScaledTranspose(jacobian: Mat, nextWeights: Mat): (m: Mat)
    ensures m.rows == jacobian.rows && m.cols == nextWeights.rows
  {
    Matrix(jacobian.rows, nextWeights.rows,
      seq(jacobian.rows, j requires 0 <= j < jacobian.rows =>
        seq(nextWeights.rows, k requires 0 <= k < nextWeights.rows =>
          if j < nextWeights.cols && j < jacobian.cols then jacobian.cells[j][j] * nextWeights.cells[k][j] else 0.0)))
  }

  lemma DiagonalTimesTranspose(jacobian: Mat, nextWeights: Mat)
    requires IsDiagonal(jacobian) && jacobian.cols == nextWeights.cols
    ensures Multiply(jacobian, Transpose(nextWeights)) == Ok(ScaledTranspose(jacobian, nextWeights))
  {
    var t := Transpose(nextWeights);
    var left := Multiply(jacobian, t).value;
    var want := ScaledTranspose(jacobian, nextWeights);
    forall j, k | 0 <= j < jacobian.rows && 0 <= k < nextWeights.rows
      ensures left.cells[j][k] == want.cells[j][k]
    {
      var c := Column(t, k);
      assert c[j] == nextWeights.cells[k][j];
      DotWithDiagonalRow(jacobian.cells[j], c, j);
    }
    assert forall j :: 0 <= j < jacobian.rows ==> left.cells[j] == want.cells[j];
    assert left.cells == want.cells;
  }

  /** Entry j of M · (column view of v) is row j of M dotted with v. */
  lemma ProductWithColumnView(m: Mat, v: Vector)
    requires m.cols == |v|
    ensures Multiply(m, ColumnView(v)).Ok?
    ensures ToVector(Multiply(m, ColumnView(v)).value).Ok?
    ensures |ToVector(Multiply(m, ColumnView(v)).value).value| == m.rows
    ensures forall j :: 0 <= j < m.rows ==> ToVector(Multiply(m, ColumnView(v)).value).value[j] == Dot(m.cells[j], v)
  {
    assert Column(ColumnView(v), 0) == v;
    ToVectorOfColumn(Multiply(m, ColumnView(v)).value);
  }

  /** The chain-rule value of an earlier layer's sensitivity: `f'(n_j) · Σ_m W[m][j] · s[m]`. */
  function ChainBack(jacobian: Mat, nextWeights: Mat, next: Vector): (r: Vector)
    requires jacobian.rows <= nextWeights.cols && nextWeights.rows == |next|
    requires jacobian.rows <= jacobian.cols
    ensures |r| == jacobian.rows
  {
    seq(jacobian.rows, j requires 0 <= j < jacobian.rows =>
      jacobian.cells[j][j] * Dot(Column(nextWeights, j), next))
  }

  /** With a diagonal Jacobian the back-propagated sensitivity is the chain-rule value. */
  lemma BackSensitivityIsChainRule(jacobian: Mat, nextWeights: Mat, next: Vector)
    requires IsDiagonal(jacobian) && jacobian.cols == nextWeights.cols && nextWeights.rows == |next|
    ensures BackSensitivity(jacobian, nextWeights, next) == Ok(ChainBack(jacobian, nextWeights, next))
  {
    var st := ScaledTranspose(jacobian, nextWeights);
    DiagonalTimesTranspose(jacobian, nextWeights);
    ProductWithColumnView(st, next);
    var got := ToVector(Multiply(st, ColumnView(next)).value).value;
    var want := ChainBack(jacobian, nextWeights, next);
    forall j | 0 <= j < jacobian.rows
      ensures got[j] == want[j]
    {
      ChainBackEntry(jacobian, nextWeights, next, j);
    }
    assert got == want;
  }

  /** Row j of the scaled transpose dotted with the next sensitivities is entry j of ChainBack. */
  lemma ChainBackEntry(jacobian: Mat, nextWeights: Mat, next: Vector, j: nat)
    requires IsDiagonal(jacobian) && jacobian.cols == nextWeights.cols && nextWeights.rows == |next|
    requires j < jacobian.rows
    ensures Dot(ScaledTranspose(jacobian, nextWeights).cells[j], next) == ChainBack(jacobian, nextWeights, next)[j]
  {
    ScaledTransposeRow(jacobian, nextWeights, j);
    DotScaled(ScaledTranspose(jacobian, nextWeights).cells[j], Column(nextWeights, j), next, jacobian.cells[j][j]);
  }

  /** Row j of the scaled transpose is column j of W scaled by f'(n_j). */
  lemma ScaledTransposeRow(jacobian: Mat, nextWeights: Mat, j: nat)
    requires IsDiagonal(jacobian) && jacobian.cols == nextWeights.cols && j < jacobian.rows
    ensures |ScaledTranspose(jacobian, nextWeights).cells[j]| == |Column(nextWeights, j)| == nextWeights.rows
    ensures forall m :: 0 <= m < nextWeights.rows ==>
              ScaledTranspose(jacobian, nextWeights).cells[j][m] == jacobian.cells[j][j] * Column(nextWeights, j)[m]
  {
  }

  /** The sensitivities of layers k .. n−1, computed from the last layer backwards. */
  function SensitivitiesFrom(layers: seq<Layer>, caches: seq<LayerCache>, expected: Vector, actual: Vector,
                             k: nat): (r: Result<seq<Vector>>)
    requires |caches| == |layers| && k < |layers|
    ensures r.Ok? ==> |expected| == |actual|
    ensures r.Ok? ==> |r.value| == |layers| - k
    ensures r.Ok? ==> forall t :: 0 <= t < |r.value| ==> |r.value[t]| == caches[k + t].jacobian.rows
    decreases |layers| - k
  {
    if k == |layers| - 1 then
      var s :- LastSensitivity(caches[k].jacobian, expected, actual);
      Ok([s])
    else
      var rest :- SensitivitiesFrom(layers, caches, expected, actual, k + 1);
      var s :- BackSensitivity(caches[k].jacobian, layers[k + 1].weights, rest[0]);
      var all := [s] + rest;
      assert forall t :: 0 < t < |all| ==> all[t] == rest[t - 1];
      Ok(all)
  }

  /** The back-propagation recurrence of the squared error, for the sensitivities
      of layers k .. n−1 (entry t belongs to layer k + t): the last is ChainLast of
      the output error, each earlier one ChainBack of the next layer's. */
  ghost predicate ChainRule(layers: seq<Layer>, caches: seq<LayerCache>, expected: Vector, actual: Vector,
                            k: nat, s: seq<Vector>)
    requires CachesFit(layers, caches) && k < |layers|
    requires |expected| == |actual| == layers[|layers| - 1].weights.rows
  {
    && |s| == |layers| - k
    && (forall t :: 0 <= t < |s| ==> |s[t]| == layers[k + t].weights.rows)
    && s[|s| - 1] == ChainLast(caches[|layers| - 1].jacobian, expected, actual)
    && (forall t :: 0 <= t < |s| - 1 ==>
          s[t] == ChainBack(caches[k + t].jacobian, layers[k + t + 1].weights, s[t + 1]))
  }

  lemma {:induction false} SensitivitiesFollowChainRule(layers: seq<Layer>, caches: seq<LayerCache>,
                                                         expected: Vector, actual: Vector, k: nat)
    requires CachesFit(layers, caches) && k < |layers|
    requires |expected| == |actual| == layers[|layers| - 1].weights.rows
    ensures SensitivitiesFrom(layers, caches, expected, actual, k).Ok?
    ensures ChainRule(layers, caches, expected, actual, k, SensitivitiesFrom(layers, caches, expected, actual, k).value)
    decreases |layers| - k
  {
    var n := |layers|;
    if k == n - 1 {
      LastSensitivityIsChainRule(caches[k].jacobian, expected, actual);
    } else {
      SensitivitiesFollowChainRule(layers, caches, expected, actual, k + 1);
      var rest := SensitivitiesFrom(layers, caches, expected, actual, k + 1).value;
      assert layers[k].weights.rows == layers[k + 1].weights.cols;
      BackSensitivityIsChainRule(caches[k].jacobian, layers[k + 1].weights, rest[0]);
      var all := SensitivitiesFrom(layers, caches, expected, actual, k).value;
      assert all == [ChainBack(caches[k].jacobian, layers[k + 1].weights, rest[0])] + rest;
      ChainRuleExtends(layers, caches, expected, actual, k, rest);
    }
  }

  /** Putting ChainBack of the next sensitivity in front of a chain-rule sequence
      for layers k + 1 .. n−1 gives one for layers k .. n−1. */
  lemma ChainRuleExtends(layers: seq<Layer>, caches: seq<LayerCache>, expected: Vector, actual: Vector,
                         k: nat, rest: seq<Vector>)
    requires CachesFit(layers, caches) && k + 1 < |layers|
    requires |expected| == |actual| == layers[|layers| - 1].weights.rows
    requires ChainRule(layers, caches, expected, actual, k + 1, rest)
    ensures ChainRule(layers, caches, expected, actual, k,
                      [ChainBack(caches[k].jacobian, layers[k + 1].weights, rest[0])] + rest)
  {
    var all := [ChainBack(caches[k].jacobian, layers[k + 1].weights, rest[0])] + rest;
    forall t | 0 < t < |all| - 1
      ensures all[t] == ChainBack(caches[k + t].jacobian, layers[k + t + 1].weights, all[t + 1])
    {
      assert all[t] == rest[t - 1] && all[t + 1] == rest[t];
      assert (k + 1) + (t - 1) == k + t;
    }
    assert forall t :: 0 < t < |all| ==> all[t] == rest[t - 1];
    assert all[|all| - 1] == rest[|rest| - 1];
  }

  /** The outer product s · xᵀ, formed as the column view of s times the row view of x. */
  function Outer(s: Vector, x: Vector): (m: Mat)
    ensures m.rows == |s| && m.cols == |x|
    ensures forall r, c :: 0 <= r < |s| && 0 <= c < |x| ==> m.cells[r][c] == s[r] * x[c]
  {
    var p := Multiply(ColumnView(s), RowView(x)).value;
    assert forall r, c :: 0 <= r < |s| && 0 <= c < |x| ==> p.cells[r][c] == s[r] * x[c] by {
      forall r, c | 0 <= r < |s| && 0 <= c < |x|
        ensures p.cells[r][c] == s[r] * x[c]
      {
        var a := ColumnView(s).cells[r];
        var b := Column(RowView(x), c);
        assert a[..0] == [] && b[..0] == [];
        assert Dot(a, b) == a[0] * b[0];
      }
    }
    p
  }

  /** The weight and bias derivatives of every layer. */
  datatype Gradient = Gradient(weights: seq<Mat>, biases: seq<Option<Vector>>)

  /** dw is the outer product s · xᵀ, and db is s exactly when layer l has biases. */
  predicate IsLayerGradient(l: Layer, dw: Mat, db: Option<Vector>, s: Vector, x: Vector) {
    && dw.rows == |s| && dw.cols == |x|
    && (forall row, col :: 0 <= row < |s| && 0 <= col < |x| ==> dw.cells[row][col] == s[row] * x[col])
    && (db.Some? <==> l.biases.Some?)
    && (db.Some? ==> db.value == s)
  }

  /** ComputeDerivative: the sensitivities of all layers, then for layer i the
      weight derivative s_i · x_iᵀ (x_i the layer's cached input) and, when the
      layer has biases, the bias derivative s_i. A network without layers fails
      reading the last cache. */
  function ComputeDerivative(net: Network, caches: seq<LayerCache>, expected: Vector, actual: Vector): (r: Result<Gradient>)
    requires |caches| == |net.layers|
    ensures |net.layers| == 0 ==> r == Err(IndexOutOfRange)
    ensures r.Ok? ==> |expected| == |actual|
    ensures r.Ok? ==> |r.value.weights| == |net.layers| && |r.value.biases| == |net.layers|
    ensures r.Ok? ==> SensitivitiesFrom(net.layers, caches, expected, actual, 0).Ok?
    ensures r.Ok? ==> forall i :: 0 <= i < |net.layers| ==>
              IsLayerGradient(net.layers[i], r.value.weights[i], r.value.biases[i],
                              SensitivitiesFrom(net.layers, caches, expected, actual, 0).value[i], caches[i].input)
  {
    if |caches| == 0 then Err(IndexOutOfRange)
    else
      var s :- SensitivitiesFrom(net.layers, caches, expected, actual, 0);
      var dW := seq(|caches|, i requires 0 <= i < |caches| => Outer(s[i], caches[i].input));
      var dB := seq(|caches|, i requires 0 <= i < |caches| => if net.layers[i].biases.Some? then Some(s[i]) else None);
      assert forall i :: 0 <= i < |caches| ==> IsLayerGradient(net.layers[i], dW[i], dB[i], s[i], caches[i].input) by {
        forall i | 0 <= i < |caches|
          ensures IsLayerGradient(net.layers[i], dW[i], dB[i], s[i], caches[i].input)
        {
          assert dW[i] == Outer(s[i], caches[i].input);
        }
      }
      Ok(Gradient(dW, dB))
  }

  /** On caches a forward pass leaves, back-propagation succeeds exactly when the
      expected output has the network's output width; its sensitivities then obey
      the chain rule and every weight derivative has its layer's shape. */
  lemma BackPropagation(net: Network, caches: seq<LayerCache>, expected: Vector, actual: Vector)
    requires |net.layers| > 0 && CachesFit(net.layers, caches)
    requires |actual| == net.layers[|net.layers| - 1].weights.rows
    ensures ComputeDerivative(net, caches, expected, actual).Ok? <==> |expected| == |actual|
    ensures |expected| == |actual| ==>
              ChainRule(net.layers, caches, expected, actual, 0,
                        SensitivitiesFrom(net.layers, caches, expected, actual, 0).value)
    ensures |expected| == |actual| ==> forall i :: 0 <= i < |net.layers| ==>
              SameShape(ComputeDerivative(net, caches, expected, actual).value.weights[i], net.layers[i].weights)
  {
    if |expected| == |actual| {
      SensitivitiesFollowChainRule(net.layers, caches, expected, actual, 0);
      var s := SensitivitiesFrom(net.layers, caches, expected, actual, 0).value;
      var g := ComputeDerivative(net, caches, expected, actual).value;
      forall i | 0 <= i < |net.layers|
        ensures SameShape(g.weights[i], net.layers[i].weights)
      {
        assert |s[i]| == net.layers[i].weights.rows;
      }
    }
  }

  // ================================================================ gradient step

  /** The update of one layer can go ahead: a weight derivative of the layer's shape
      and, when the layer has biases, a bias derivative of their length. */
  predicate UpdateFits(l: Layer, dw: Option<Mat>, db: Option<Vector>) {
    && dw.Some? && SameShape(dw.value, l.weights)
    && (l.biases.Some? ==> db.Some? && |db.value| == |l.biases.value|)
  }

  /** One layer's step: the biases (when present) and then the weights move by
      −rate times their derivative. A missing derivative is a null reference. */
  function TrainLayer(l: Layer, rate: real, dw: Option<Mat>, db: Option<Vector>): (r: Result<Layer>)
    ensures r.Ok? <==> UpdateFits(l, dw, db)
    ensures r.Ok? ==> SameLayerShape(r.value, l)
    ensures r.Ok? ==> forall i, j :: 0 <= i < l.weights.rows && 0 <= j < l.weights.cols ==>
              r.value.weights.cells[i][j] == l.weights.cells[i][j] - dw.value.cells[i][j] * rate
    ensures r.Ok? && l.biases.Some? ==> forall i :: 0 <= i < |l.biases.value| ==>
              r.value.biases.value[i] == l.biases.value[i] - db.value[i] * rate
  {
    var biases :-
      if l.biases.None? then Ok(None)
      else if db.None? then Err(NullReference)
      else
        var b :- SubVec(l.biases.value, ScaleVec(rate, db.value));
        Ok(Some(b));
    var weights :- if dw.None? then Err(NullReference) else Subtract(l.weights, Scale(rate, dw.value));
    Ok(Layer(weights, biases, l.transfer))
  }

  function TrainLayers(ls: seq<Layer>, rate: real, dW: seq<Option<Mat>>, dB: seq<Option<Vector>>): (r: Result<seq<Layer>>)
    requires |dW| == |ls| && |dB| == |ls|
    ensures r.Ok? <==> forall i :: 0 <= i < |ls| ==> UpdateFits(ls[i], dW[i], dB[i])
    ensures r.Ok? ==> |r.value| == |ls|
    ensures r.Ok? ==> forall i :: 0 <= i < |ls| ==> TrainLayer(ls[i], rate, dW[i], dB[i]) == Ok(r.value[i])
    decreases |ls|
  {
    if |ls| == 0 then Ok([])
    else
      var first :- TrainLayer(ls[0], rate, dW[0], dB[0]);
      var rest :- TrainLayers(ls[1..], rate, dW[1..], dB[1..]);
      var all := [first] + rest;
      assert forall i :: 0 < i < |ls| ==> ls[i] == ls[1..][i - 1] && dW[i] == dW[1..][i - 1]
                                       && dB[i] == dB[1..][i - 1] && all[i] == rest[i - 1];
      Ok(all)
  }

  /** Train: checks the rate and the derivative counts, then steps every layer. */
  function Train(net: Network, rate: real, dW: seq<Option<Mat>>, dB: seq<Option<Vector>>): (r: Result<Network>)
    ensures !RateInRange(rate) || |dW| != |net.layers| || |dB| != |net.layers| ==> r == Err(InvalidArgument)
    ensures r.Ok? <==> && RateInRange(rate) && |dW| == |net.layers| && |dB| == |net.layers|
                       && forall i :: 0 <= i < |net.layers| ==> UpdateFits(net.layers[i], dW[i], dB[i])
    ensures r.Ok? ==> SameNetShape(r.value, net)
    ensures r.Ok? ==> forall i :: 0 <= i < |net.layers| ==>
              TrainLayer(net.layers[i], rate, dW[i], dB[i]) == Ok(r.value.layers[i])
  {
    if !RateInRange(rate) then Err(InvalidArgument)
    else if |dW| != |net.layers| then Err(InvalidArgument)
    else if |dB| != |net.layers| then Err(InvalidArgument)
    else
      var ls :- TrainLayers(net.layers, rate, dW, dB);
      Ok(Network(ls))
  }

  /** Stepping back with the opposite rate and the same derivatives undoes a layer's step. */
  lemma TrainLayerUndo(l: Layer, rate: real, dw: Option<Mat>, db: Option<Vector>)
    requires UpdateFits(l, dw, db)
    ensures TrainLayer(TrainLayer(l, rate, dw, db).value, -rate, dw, db) == Ok(l)
  {
    var once := TrainLayer(l, rate, dw, db).value;
    var back := TrainLayer(once, -rate, dw, db).value;
    assert back.weights.cells == l.weights.cells by {
      forall i | 0 <= i < l.weights.rows
        ensures back.weights.cells[i] == l.weights.cells[i]
      {
        forall j | 0 <= j < l.weights.cols
          ensures back.weights.cells[i][j] == l.weights.cells[i][j]
        {
          var d := dw.value.cells[i][j];
          assert back.weights.cells[i][j] == (l.weights.cells[i][j] - d * rate) - d * -rate;
        }
      }
    }
    if l.biases.Some? {
      assert back.biases.value == l.biases.value by {
        forall i | 0 <= i < |l.biases.value|
          ensures back.biases.value[i] == l.biases.value[i]
        {
          var d := db.value[i];
          assert back.biases.value[i] == (l.biases.value[i] - d * rate) - d * -rate;
        }
      }
    }
  }

  /** Training with rate −rate after training with rate restores the network. */
  lemma TrainUndo(net: Network, rate: real, dW: seq<Option<Mat>>, dB: seq<Option<Vector>>)
    requires Train(net, rate, dW, dB).Ok?
    ensures Train(Train(net, rate, dW, dB).value, -rate, dW, dB) == Ok(net)
  {
    var once := Train(net, rate, dW, dB).value;
    forall i | 0 <= i < |net.layers|
      ensures UpdateFits(once.layers[i], dW[i], dB[i])
      ensures TrainLayer(once.layers[i], -rate, dW[i], dB[i]) == Ok(net.layers[i])
    {
      TrainLayerUndo(net.layers[i], rate, dW[i], dB[i]);
    }
    var back := Train(once, -rate, dW, dB).value;
    assert back.layers == net.layers;
  }

  // ================================================================ incremental training

  /** IncrementalTrain: checks the rate, runs the forward pass, back-propagates the
      error against the expected output and takes one gradient step. */
  function IncrementalTrain(net: Network, point: TrainingPoint, rate: real, exp: ExpFn): (r: Result<Network>)
    ensures !RateInRange(rate) ==> r == Err(InvalidArgument)
    ensures r.Ok? ==> SameNetShape(r.value, net)
  {
    if !RateInRange(rate) then Err(InvalidArgument)
    else
      var fwd :- Forward(net.layers, point.input, exp);
      var g :- ComputeDerivative(net, fwd.1, point.expectedOutput, fwd.0);
      Train(net, rate, Present(g.weights), g.biases)
  }

  /** Every derivative present. */
  function Present(ms: seq<Mat>): (r: seq<Option<Mat>>)
    ensures |r| == |ms| && forall i :: 0 <= i < |ms| ==> r[i] == Some(ms[i])
  {
    seq(|ms|, i requires 0 <= i < |ms| => Some(ms[i]))
  }

  /** `next` is layer l after one gradient step of size rate along the
      sensitivity s, the layer having seen input x: each weight moves by
      −rate · s[r] · x[c] and each bias by −rate · s[r]. */
  ghost predicate IsGradientStep(l: Layer, next: Layer, s: Vector, x: Vector, rate: real) {
    && SameLayerShape(next, l) && BiasFits(l)
    && |s| == l.weights.rows && |x| == l.weights.cols
    && (forall row, col :: 0 <= row < l.weights.rows && 0 <= col < l.weights.cols ==>
          next.weights.cells[row][col] == l.weights.cells[row][col] - (s[row] * x[col]) * rate)
    && (l.biases.Some? ==> forall row :: 0 <= row < |l.biases.value| ==>
          next.biases.value[row] == l.biases.value[row] - s[row] * rate)
  }

  lemma TrainLayerIsGradientStep(l: Layer, rate: real, dw: Mat, db: Option<Vector>, s: Vector, x: Vector)
    requires BiasFits(l) && |s| == l.weights.rows && |x| == l.weights.cols
    requires IsLayerGradient(l, dw, db, s, x)
    ensures TrainLayer(l, rate, Some(dw), db).Ok?
    ensures IsGradientStep(l, TrainLayer(l, rate, Some(dw), db).value, s, x, rate)
  {
  }

  /** IncrementalTrain succeeds exactly when the rate is in range, the network has
      a layer, the forward pass goes through and the expected output has the
      output width. */
  lemma IncrementalTrainSucceeds(net: Network, point: TrainingPoint, rate: real, exp: ExpFn)
    ensures IncrementalTrain(net, point, rate, exp).Ok? <==>
              && RateInRange(rate) && |net.layers| > 0
              && Forward(net.layers, point.input, exp).Ok?
              && |point.expectedOutput| == |Forward(net.layers, point.input, exp).value.0|
  {
    if RateInRange(rate) && |net.layers| > 0 && Forward(net.layers, point.input, exp).Ok? {
      var fwd := Forward(net.layers, point.input, exp).value;
      ForwardOkMeansWellFormed(net.layers, point.input, exp);
      ForwardCachesFit(net.layers, point.input, exp);
      BackPropagation(net, fwd.1, point.expectedOutput, fwd.0);
      if |point.expectedOutput| == |fwd.0| {
        var g := ComputeDerivative(net, fwd.1, point.expectedOutput, fwd.0).value;
        forall i | 0 <= i < |net.layers|
          ensures UpdateFits(net.layers[i], Present(g.weights)[i], g.biases[i])
        {
        }
      }
    }
  }

  /** The one-argument IncrementalTrain: the default rate, which is in range,
      so it succeeds exactly when the network has a layer, the forward pass
      goes through and the expected output has the output width. */
  function IncrementalTrainDefault(net: Network, point: TrainingPoint, exp: ExpFn): (r: Result<Network>)
    ensures r.Ok? <==> && |net.layers| > 0
                       && Forward(net.layers, point.input, exp).Ok?
                       && |point.expectedOutput| == |Forward(net.layers, point.input, exp).value.0|
    ensures r.Ok? ==> SameNetShape(r.value, net)
  {
    IncrementalTrainSucceeds(net, point, DefaultLearningRate, exp);
    IncrementalTrain(net, point, DefaultLearningRate, exp)
  }

  /** The step Train takes with the derivatives back-propagation produces is, in
      every layer, the gradient step along the sensitivities. */
  lemma TrainAlongGradient(net: Network, caches: seq<LayerCache>, expected: Vector, actual: Vector, rate: real)
    requires |net.layers| > 0 && CachesFit(net.layers, caches) && RateInRange(rate)
    requires forall i :: 0 <= i < |net.layers| ==> BiasFits(net.layers[i])
    requires |expected| == |actual| == net.layers[|net.layers| - 1].weights.rows
    ensures ComputeDerivative(net, caches, expected, actual).Ok?
    ensures var g := ComputeDerivative(net, caches, expected, actual).value;
            var s := SensitivitiesFrom(net.layers, caches, expected, actual, 0).value;
            var next := Train(net, rate, Present(g.weights), g.biases);
            && next.Ok? && |next.value.layers| == |net.layers|
            && forall i :: 0 <= i < |net.layers| ==>
                 IsGradientStep(net.layers[i], next.value.layers[i], s[i], caches[i].input, rate)
  {
    BackPropagation(net, caches, expected, actual);
    var g := ComputeDerivative(net, caches, expected, actual).value;
    var s := SensitivitiesFrom(net.layers, caches, expected, actual, 0).value;
    forall i | 0 <= i < |net.layers|
      ensures UpdateFits(net.layers[i], Present(g.weights)[i], g.biases[i])
    {
    }
    var next := Train(net, rate, Present(g.weights), g.biases).value;
    forall i | 0 <= i < |net.layers|
      ensures IsGradientStep(net.layers[i], next.layers[i], s[i], caches[i].input, rate)
    {
      TrainLayerIsGradientStep(net.layers[i], rate, g.weights[i], g.biases[i], s[i], caches[i].input);
    }
  }

  /** A successful IncrementalTrain takes, in every layer, the gradient step along
      the chain-rule sensitivities s (ChainRule) with the inputs x_i the layers saw. */
  lemma IncrementalTrainUpdate(net: Network, point: TrainingPoint, rate: real, exp: ExpFn)
    requires IncrementalTrain(net, point, rate, exp).Ok?
    ensures Forward(net.layers, point.input, exp).Ok? && |net.layers| > 0
    ensures var fwd := Forward(net.layers, point.input, exp).value;
            && |point.expectedOutput| == |fwd.0| == net.layers[|net.layers| - 1].weights.rows
            && CachesFit(net.layers, fwd.1)
            && SensitivitiesFrom(net.layers, fwd.1, point.expectedOutput, fwd.0, 0).Ok?
    ensures var fwd := Forward(net.layers, point.input, exp).value;
            var s := SensitivitiesFrom(net.layers, fwd.1, point.expectedOutput, fwd.0, 0).value;
            var next := IncrementalTrain(net, point, rate, exp).value;
            && ChainRule(net.layers, fwd.1, point.expectedOutput, fwd.0, 0, s)
            && |next.layers| == |net.layers|
            && forall i :: 0 <= i < |net.layers| ==> IsGradientStep(net.layers[i], next.layers[i], s[i], fwd.1[i].input, rate)
  {
    IncrementalTrainSucceeds(net, point, rate, exp);
    var fwd := Forward(net.layers, point.input, exp).value;
    ForwardOkMeansWellFormed(net.layers, point.input, exp);
    ForwardCachesFit(net.layers, point.input, exp);
    BackPropagation(net, fwd.1, point.expectedOutput, fwd.0);
    TrainAlongGradient(net, fwd.1, point.expectedOutput, fwd.0, rate);
  }

  // ================================================================ sums of squares

  function Square(x: real): (y: real)
    ensures y >= 0.0
    ensures y == 0.0 <==> x == 0.0
  {
    SquareSign(x, x * x);
    x * x
  }

  lemma SquareSign(x: real, y: real)
    requires y == x * x
    ensures y >= 0.0
    ensures y == 0.0 <==> x == 0.0
  {
    if x > 0.0 {
      ProductPositive(x, x, y);
    } else if x < 0.0 {
      ProductPositive(-x, -x, y);
    }
  }

  lemma ProductPositive(a: real, b: real, y: real)
    requires a > 0.0 && b > 0.0 && y == a * b
    ensures y > 0.0
  {
  }

  /** Every expected output has width m. */
  predicate OutputsHaveWidth(points: seq<TrainingPoint>, m: nat) {
    forall p :: 0 <= p < |points| ==> |points[p].expectedOutput| == m
  }

  /** Σ over the points of expected output j. */
  function ExpectedSum(points: seq<TrainingPoint>, j: nat): real
    requires forall p :: 0 <= p < |points| ==> j < |points[p].expectedOutput|
    decreases |points|
  {
    if |points| == 0 then 0.0
    else ExpectedSum(points[..|points| - 1], j) + points[|points| - 1].expectedOutput[j]
  }

  /** The mean of expected output j. With no points the original divides zero by
      zero; that value is never used, since nothing is summed over an empty set. */
  function Mean(points: seq<TrainingPoint>, j: nat): real
    requires forall p :: 0 <= p < |points| ==> j < |points[p].expectedOutput|
  {
    if |points| == 0 then 0.0 else ExpectedSum(points, j) / (|points| as real)
  }

  /** Σ over the points of (mean − expected output j)²: never negative, and zero
      exactly when every point's output j equals the mean. */
  function SquaredDeviations(points: seq<TrainingPoint>, j: nat, mean: real): (r: real)
    requires forall p :: 0 <= p < |points| ==> j < |points[p].expectedOutput|
    ensures r >= 0.0
    ensures r == 0.0 <==> forall p :: 0 <= p < |points| ==> points[p].expectedOutput[j] == mean
    decreases |points|
  {
    if |points| == 0 then 0.0
    else
      var front := points[..|points| - 1];
      assert forall p :: 0 <= p < |front| ==> front[p] == points[p];
      SquaredDeviations(front, j, mean) + Square(mean - points[|points| - 1].expectedOutput[j])
  }

  /** TotalSumOfSquares: per output, the sum over the training points of the
      squared deviation of the expected output from its mean. The last layer must
      exist and every expected output must have its width. */
  function TotalSumOfSquares(net: Network, points: seq<TrainingPoint>): (r: Result<Vector>)
    ensures |net.layers| == 0 ==> r == Err(IndexOutOfRange)
    ensures |net.layers| > 0 ==>
              (r.Ok? <==> OutputsHaveWidth(points, net.layers[|net.layers| - 1].weights.rows))
    ensures r.Err? && |net.layers| > 0 ==> r.error == InvalidArgument
    ensures r.Ok? ==> |r.value| == net.layers[|net.layers| - 1].weights.rows
    ensures r.Ok? ==> forall j :: 0 <= j < |r.value| ==> r.value[j] >= 0.0
    ensures r.Ok? ==> forall j :: 0 <= j < |r.value| ==>
              (r.value[j] == 0.0 <==> forall p :: 0 <= p < |points| ==> points[p].expectedOutput[j] == Mean(points, j))
  {
    if |net.layers| == 0 then Err(IndexOutOfRange)
    else
      var m := net.layers[|net.layers| - 1].weights.rows;
      if !OutputsHaveWidth(points, m) then Err(InvalidArgument)
      else Ok(seq(m, j requires 0 <= j < m => SquaredDeviations(points, j, Mean(points, j))))
  }

  /** SquareOfResiduals: the element-wise squared error (e_i − a_i)². */
  function SquareOfResiduals(expected: Vector, actual: Vector): (r: Result<Vector>)
    ensures r.Err? <==> |expected| != |actual|
    ensures r.Err? ==> r.error == InvalidArgument
    ensures r.Ok? ==> |r.value| == |expected|
    ensures r.Ok? ==> forall i :: 0 <= i < |expected| ==>
              r.value[i] >= 0.0 && (r.value[i] == 0.0 <==> expected[i] == actual[i])
    ensures r.Ok? ==> forall i :: 0 <= i < |expected| ==> r.value[i] == Square(expected[i] - actual[i])
  {
    if |expected| != |actual| then Err(InvalidArgument)
    else Ok(seq(|expected|, i requires 0 <= i < |expected| => Square(expected[i] - actual[i])))
  }

  /** Per output, the sum over the training points of the squared error of the
      network's output: the residual sums of squares the R² test compares. */
  function ResidualSums(net: Network, points: seq<TrainingPoint>, width: nat, exp: ExpFn): (r: Result<Vector>)
    ensures r.Ok? ==> |r.value| == width && forall j :: 0 <= j < width ==> r.value[j] >= 0.0
    decreases |points|
  {
    if |points| == 0 then Ok(ZeroVector(width))
    else
      var before :- ResidualSums(net, points[..|points| - 1], width, exp);
      var p := points[|points| - 1];
      var out :- CalculateOutput(net, p.input, exp);
      var squares :- SquareOfResiduals(p.expectedOutput, out);
      AddVec(before, squares)
  }

  // ================================================================ batch training

  /** The R² test of one output, `!(minR2 > 1 − rss/tss)` in double arithmetic.
      With tss = 0 the quotient is NaN when rss = 0 (the comparison is false, so
      the test passes), −∞ for rss > 0 (fails) and +∞ for rss < 0 (passes). */
  predicate R2Passes(rss: real, tss: real, minR2: real) {
    if tss == 0.0 then rss <= 0.0 else minR2 <= 1.0 - rss / tss
  }

  /** For a positive total sum of squares the test passes exactly when the
      residual sum is at most the fraction 1 − minR2 of it. */
  lemma R2PassesMeans(rss: real, tss: real, minR2: real)
    requires tss > 0.0
    ensures R2Passes(rss, tss, minR2) <==> rss <= (1.0 - minR2) * tss
  {
    var q := rss / tss;
    assert q * tss == rss;
    ScalingKeepsOrder(q, 1.0 - minR2, tss);
  }

  lemma ScalingKeepsOrder(a: real, b: real, t: real)
    requires t > 0.0
    ensures a <= b <==> a * t <= b * t
  {
    assert b * t - a * t == (b - a) * t;
    if a > b {
      assert (a - b) * t > 0.0;
    }
  }

  /** Every output passes the R² test. */
  predicate AllPass(rss: Vector, tss: Vector, minR2: real)
    requires |rss| == |tss|
  {
    forall i :: 0 <= i < |rss| ==> R2Passes(rss[i], tss[i], minR2)
  }

  /** The network's residuals on the training set pass the R² test for every output. */
  ghost predicate Converged(net: Network, points: seq<TrainingPoint>, tss: Vector, minR2: real, exp: ExpFn) {
    var rs := ResidualSums(net, points, |tss|, exp);
    rs.Ok? && AllPass(rs.value, tss, minR2)
  }

  /** Zero residuals pass the test for any non-negative total and threshold at most 1. */
  lemma ZeroResidualsPass(tss: Vector, minR2: real)
    requires minR2 <= 1.0
    requires forall i :: 0 <= i < |tss| ==> tss[i] >= 0.0
    ensures AllPass(ZeroVector(|tss|), tss, minR2)
  {
  }

  /** Running sums of the weight and bias derivatives over a pass. None is a sum
      not yet allocated. */
  datatype Accumulators = Accumulators(weights: seq<Option<Mat>>, biases: seq<Option<Vector>>)

  function NoAccumulators(n: nat): (a: Accumulators)
    ensures |a.weights| == n && |a.biases| == n
    ensures forall i :: 0 <= i < n ==> a.weights[i].None? && a.biases[i].None?
  {
    Accumulators(seq(n, i => None), seq(n, i => None))
  }

  /** The weight sum of layer l, or zeros of its shape when not yet allocated. */
  function WeightSumOrZero(l: Layer, sum: Option<Mat>): Mat {
    if sum.None? then Zeros(l.weights.rows, l.weights.cols) else sum.value
  }

  /** The bias sum of layer l, or zeros of its length when not yet allocated. */
  function BiasSumOrZero(l: Layer, sum: Option<Vector>): Vector
    requires l.biases.Some?
  {
    if sum.None? then ZeroVector(|l.biases.value|) else sum.value
  }

  /** Adds one point's derivatives of layer l into the layer's sums: the biases
      (when present) first, then the weights. */
  function AccumulateLayer(l: Layer, sw: Option<Mat>, sb: Option<Vector>, dw: Mat, db: Option<Vector>)
    : (r: Result<(Option<Mat>, Option<Vector>)>)
    ensures r.Ok? <==> && SameShape(WeightSumOrZero(l, sw), dw)
                       && (l.biases.Some? ==> db.Some? && |BiasSumOrZero(l, sb)| == |db.value|)
    ensures r.Ok? ==> r.value.0.Some? && SameShape(r.value.0.value, dw)
    ensures r.Ok? ==> forall i, j :: 0 <= i < dw.rows && 0 <= j < dw.cols ==>
              r.value.0.value.cells[i][j] == WeightSumOrZero(l, sw).cells[i][j] + dw.cells[i][j]
    ensures r.Ok? && l.biases.None? ==> r.value.1 == sb
    ensures r.Ok? && l.biases.Some? ==> r.value.1.Some? && |r.value.1.value| == |db.value|
    ensures r.Ok? && l.biases.Some? ==> forall i :: 0 <= i < |db.value| ==>
              r.value.1.value[i] == BiasSumOrZero(l, sb)[i] + db.value[i]
  {
    var b :-
      if l.biases.None? then Ok(sb)
      else if db.None? then Err(NullReference)
      else
        var sum :- AddVec(BiasSumOrZero(l, sb), db.value);
        Ok(Some(sum));
    var w :- Add(WeightSumOrZero(l, sw), dw);
    Ok((Some(w), b))
  }

  /** Adds one point's gradient into the sums of every layer, in layer order. */
  function Accumulate(layers: seq<Layer>, acc: Accumulators, g: Gradient, k: nat): (r: Result<Accumulators>)
    requires |acc.weights| == |layers| && |acc.biases| == |layers| && k <= |layers|
    requires |g.weights| == |layers| && |g.biases| == |layers|
    ensures r.Ok? ==> |r.value.weights| == |layers| && |r.value.biases| == |layers|
    ensures r.Ok? ==> forall i :: 0 <= i < k ==> r.value.weights[i] == acc.weights[i] && r.value.biases[i] == acc.biases[i]
    ensures r.Ok? ==> forall i :: k <= i < |layers| ==>
              AccumulateLayer(layers[i], acc.weights[i], acc.biases[i], g.weights[i], g.biases[i])
                == Ok((r.value.weights[i], r.value.biases[i]))
    decreases |layers| - k
  {
    if k == |layers| then Ok(acc)
    else
      var sums :- AccumulateLayer(layers[k], acc.weights[k], acc.biases[k], g.weights[k], g.biases[k]);
      Accumulate(layers, Accumulators(acc.weights[k := sums.0], acc.biases[k := sums.1]), g, k + 1)
  }

  /** Adds one point's squared residuals into rss and its derivatives into the sums. */
  function AddPoint(net: Network, acc: Accumulators, rss: Vector, expected: Vector, actual: Vector, g: Gradient)
    : (r: Result<(Accumulators, Vector)>)
    requires |acc.weights| == |net.layers| && |acc.biases| == |net.layers|
    requires |g.weights| == |net.layers| && |g.biases| == |net.layers|
    requires |expected| == |actual|
    ensures r.Ok? ==> |r.value.0.weights| == |net.layers| && |r.value.0.biases| == |net.layers|
    ensures r.Ok? ==> AddVec(rss, SquareOfResiduals(expected, actual).value) == Ok(r.value.1)
  {
    var squares := SquareOfResiduals(expected, actual).value;
    var sums :- AddVec(rss, squares);
    var acc' :- Accumulate(net.layers, acc, g, 0);
    Ok((acc', sums))
  }

  /** What one training point adds to a pass: forward pass, back-propagation,
      then AddPoint. */
  function PointStep(net: Network, p: TrainingPoint, acc: Accumulators, rss: Vector, exp: ExpFn)
    : (r: Result<(Accumulators, Vector)>)
    requires |acc.weights| == |net.layers| && |acc.biases| == |net.layers|
    ensures r.Ok? ==> |r.value.0.weights| == |net.layers| && |r.value.0.biases| == |net.layers|
    ensures r.Ok? ==> |r.value.1| == |rss|
  {
    var fwd :- Forward(net.layers, p.input, exp);
    var g :- ComputeDerivative(net, fwd.1, p.expectedOutput, fwd.0);
    AddPoint(net, acc, rss, p.expectedOutput, fwd.0, g)
  }

  /** One pass over the training set: PointStep for every point, in order. */
  function Sweep(net: Network, points: seq<TrainingPoint>, acc: Accumulators, rss: Vector, exp: ExpFn)
    : (r: Result<(Accumulators, Vector)>)
    requires |acc.weights| == |net.layers| && |acc.biases| == |net.layers|
    ensures |points| == 0 ==> r == Ok((acc, rss))
    ensures r.Ok? ==> |r.value.0.weights| == |net.layers| && |r.value.0.biases| == |net.layers|
    ensures r.Ok? ==> |r.value.1| == |rss|
    decreases |points|
  {
    if |points| == 0 then Ok((acc, rss))
    else
      var before :- Sweep(net, points[..|points| - 1], acc, rss, exp);
      PointStep(net, points[|points| - 1], before.0, before.1, exp)
  }

  /** The residuals a pass adds up from zero are the network's residual sums. */
  lemma {:induction false} SweepComputesResiduals(net: Network, points: seq<TrainingPoint>, acc: Accumulators,
                                                   width: nat, exp: ExpFn)
    requires |acc.weights| == |net.layers| && |acc.biases| == |net.layers|
    requires Sweep(net, points, acc, ZeroVector(width), exp).Ok?
    ensures ResidualSums(net, points, width, exp) == Ok(Sweep(net, points, acc, ZeroVector(width), exp).value.1)
    decreases |points|
  {
    if |points| > 0 {
      SweepComputesResiduals(net, points[..|points| - 1], acc, width, exp);
    }
  }

  /** The training loop from pass j. `reset` chooses whether each pass starts its
      derivative sums afresh (true) or carries on from the sums of the previous
      passes (false). */
  function BatchLoop(net: Network, points: seq<TrainingPoint>, minR2: real, rate: real, tss: Vector,
                     acc: Accumulators, reset: bool, j: nat, exp: ExpFn): (r: Result<Network>)
    requires 0.0 < minR2 <= 1.0 && RateInRange(rate)
    requires forall i :: 0 <= i < |tss| ==> tss[i] >= 0.0
    requires |acc.weights| == |net.layers| && |acc.biases| == |net.layers|
    ensures r.Ok? ==> SameNetShape(r.value, net) && Converged(r.value, points, tss, minR2, exp)
    ensures j >= MaxTries ==> r == Err(ConvergenceFailure)
    decreases MaxTries - j
  {
    if j >= MaxTries then Err(ConvergenceFailure)
    else
      var start := if reset then NoAccumulators(|net.layers|) else acc;
      var pass :- Sweep(net, points, start, ZeroVector(|tss|), exp);
      SweepComputesResiduals(net, points, start, |tss|, exp);
      ZeroResidualsPass(tss, minR2);
      if AllPass(pass.1, tss, minR2) then Ok(net)
      else
        assert |points| > 0;
        var next :- Train(net, rate / (|points| as real), pass.0.weights, pass.0.biases);
        var r := BatchLoop(next, points, minR2, rate, tss, pass.0, reset, j + 1, exp);
        SameNetShapeTransitive(r, next, net);
        r
  }

  lemma SameNetShapeTransitive(a: Result<Network>, b: Network, c: Network)
    requires SameNetShape(b, c)
    ensures a.Ok? && SameNetShape(a.value, b) ==> SameNetShape(a.value, c)
  {
  }

  /** A pass that leaves some output failing the R² test is followed by the
      step along its sums and the next pass. */
  lemma BatchLoopSteps(net: Network, points: seq<TrainingPoint>, minR2: real, rate: real, tss: Vector,
                       acc: Accumulators, reset: bool, j: nat, exp: ExpFn, pass: (Accumulators, Vector), next: Network)
    requires 0.0 < minR2 <= 1.0 && RateInRange(rate)
    requires forall i :: 0 <= i < |tss| ==> tss[i] >= 0.0
    requires |acc.weights| == |net.layers| && |acc.biases| == |net.layers|
    requires j < MaxTries
    requires Sweep(net, points, if reset then NoAccumulators(|net.layers|) else acc, ZeroVector(|tss|), exp) == Ok(pass)
    requires |pass.1| == |tss| && !AllPass(pass.1, tss, minR2)
    requires Train(net, rate / (|points| as real), pass.0.weights, pass.0.biases) == Ok(next)
    requires |pass.0.weights| == |next.layers| && |pass.0.biases| == |next.layers|
    ensures BatchLoop(net, points, minR2, rate, tss, acc, reset, j, exp)
              == BatchLoop(next, points, minR2, rate, tss, pass.0, reset, j + 1, exp)
  {
  }

  /** BatchTrainRestarted: checks the threshold (0 < minR2 ≤ 1) and the rate, computes the
      total sums of squares once, then repeats passes over the training set,
      stepping by rate/|points| times the summed derivatives until every output
      passes the R² test or MaxTries passes have been made. Each pass starts its
      derivative sums from zero. */
  function BatchTrainRestarted(net: Network, points: seq<TrainingPoint>, minR2: real, rate: real, exp: ExpFn): (r: Result<Network>)
    ensures minR2 <= 0.0 || minR2 > 1.0 || !RateInRange(rate) ==> r == Err(InvalidArgument)
    ensures r.Ok? ==> SameNetShape(r.value, net)
    ensures r.Ok? ==> TotalSumOfSquares(net, points).Ok?
    ensures r.Ok? ==> Converged(r.value, points, TotalSumOfSquares(net, points).value, minR2, exp)
  {
    if minR2 <= 0.0 || minR2 > 1.0 then Err(InvalidArgument)
    else if !RateInRange(rate) then Err(InvalidArgument)
    else
      var tss :- TotalSumOfSquares(net, points);
      BatchLoop(net, points, minR2, rate, tss, NoAccumulators(|net.layers|), true, 0, exp)
  }

  /** BatchTrain as the original writes it: the derivative sums are allocated
      once, before the first pass, so each pass adds onto the sums of all the
      passes before it. */
  function BatchTrainAsWritten(net: Network, points: seq<TrainingPoint>, minR2: real, rate: real, exp: ExpFn)
    : (r: Result<Network>)
    ensures minR2 <= 0.0 || minR2 > 1.0 || !RateInRange(rate) ==> r == Err(InvalidArgument)
    ensures r.Ok? ==> SameNetShape(r.value, net)
    ensures r.Ok? ==> TotalSumOfSquares(net, points).Ok?
    ensures r.Ok? ==> Converged(r.value, points, TotalSumOfSquares(net, points).value, minR2, exp)
  {
    if minR2 <= 0.0 || minR2 > 1.0 then Err(InvalidArgument)
    else if !RateInRange(rate) then Err(InvalidArgument)
    else
      var tss :- TotalSumOfSquares(net, points);
      BatchLoop(net, points, minR2, rate, tss, NoAccumulators(|net.layers|), false, 0, exp)
  }

  /** The one-argument BatchTrain: the default threshold and rate, which pass
      the argument checks, so the training loop starts at once on the total
      sums of squares (or their failure is passed on). It runs the corrected
      loop, whose sums restart every pass; the original carries them over,
      which is `BatchTrainAsWritten` with these two constants. */
  function BatchTrainDefault(net: Network, points: seq<TrainingPoint>, exp: ExpFn): (r: Result<Network>)
    ensures TotalSumOfSquares(net, points).Err? ==> r == Err(TotalSumOfSquares(net, points).error)
    ensures TotalSumOfSquares(net, points).Ok? ==>
              r == BatchLoop(net, points, DefaultMinRSquare, DefaultLearningRate, TotalSumOfSquares(net, points).value,
                             NoAccumulators(|net.layers|), true, 0, exp)
    ensures r.Ok? ==> SameNetShape(r.value, net)
    ensures r.Ok? ==> Converged(r.value, points, TotalSumOfSquares(net, points).value, DefaultMinRSquare, exp)
  {
    BatchTrainRestarted(net, points, DefaultMinRSquare, DefaultLearningRate, exp)
  }

  /** With the sums restarted, a pass depends only on the current network: the
      sums carried in from earlier passes play no part. */
  lemma RestartedPassesIgnoreHistory(net: Network, points: seq<TrainingPoint>, minR2: real, rate: real,
                                     tss: Vector, acc: Accumulators, j: nat, exp: ExpFn)
    requires 0.0 < minR2 <= 1.0 && RateInRange(rate)
    requires forall i :: 0 <= i < |tss| ==> tss[i] >= 0.0
    requires |acc.weights| == |net.layers| && |acc.biases| == |net.layers|
    ensures BatchLoop(net, points, minR2, rate, tss, acc, true, j, exp)
              == BatchLoop(net, points, minR2, rate, tss, NoAccumulators(|net.layers|), true, j, exp)
  {
  }

  // ================================================================ the batch gradient

  /** One point's back-propagated gradient at `net`: the forward pass, then
      ComputeDerivative on its caches. */
  function PointGradient(net: Network, p: TrainingPoint, exp: ExpFn): (r: Result<Gradient>)
    ensures r.Ok? ==> |r.value.weights| == |net.layers| && |r.value.biases| == |net.layers|
  {
    var fwd :- Forward(net.layers, p.input, exp);
    ComputeDerivative(net, fwd.1, p.expectedOutput, fwd.0)
  }

  /** PointGradient at `net` as a function of the point. */
  function PointGradientAt(net: Network, exp: ExpFn): TrainingPoint -> Result<Gradient> {
    p => PointGradient(net, p, exp)
  }

  /** The gradients of all the points at the same network, in order; the first
      failure is passed on. */
  function PointGradients(net: Network, points: seq<TrainingPoint>, exp: ExpFn): (r: Result<seq<Gradient>>)
    ensures r.Ok? <==> forall i :: 0 <= i < |points| ==> PointGradient(net, points[i], exp).Ok?
    ensures r.Ok? ==> |r.value| == |points|
    ensures r.Ok? ==> forall i :: 0 <= i < |points| ==> PointGradient(net, points[i], exp) == Ok(r.value[i])
  {
    MapOk(PointGradientAt(net, exp), points)
  }

  /** The gradient has one derivative per layer, each of the layer's shape. */
  predicate GradientFits(layers: seq<Layer>, g: Gradient) {
    && |g.weights| == |layers| && |g.biases| == |layers|
    && (forall k :: 0 <= k < |layers| ==> SameShape(g.weights[k], layers[k].weights))
    && (forall k :: 0 <= k < |layers| && layers[k].biases.Some? ==>
          g.biases[k].Some? && |g.biases[k].value| == |layers[k].biases.value|)
  }

  /** Entry (row, col) of layer k's weight derivative summed over the gradients;
      a gradient without that entry adds nothing. */
  function WeightGradientSum(gs: seq<Gradient>, k: nat, row: nat, col: nat): real
    decreases |gs|
  {
    if |gs| == 0 then 0.0
    else
      var g := gs[|gs| - 1];
      WeightGradientSum(gs[..|gs| - 1], k, row, col)
      + (if k < |g.weights| && row < g.weights[k].rows && col < g.weights[k].cols then g.weights[k].cells[row][col] else 0.0)
  }

  /** Entry i of layer k's bias derivative summed over the gradients. */
  function BiasGradientSum(gs: seq<Gradient>, k: nat, i: nat): real
    decreases |gs|
  {
    if |gs| == 0 then 0.0
    else
      var g := gs[|gs| - 1];
      BiasGradientSum(gs[..|gs| - 1], k, i)
      + (if k < |g.biases| && g.biases[k].Some? && i < |g.biases[k].value| then g.biases[k].value[i] else 0.0)
  }

  /** One sum per layer, and every allocated sum has its layer's shape. */
  predicate SumsFit(layers: seq<Layer>, acc: Accumulators) {
    && |acc.weights| == |layers| && |acc.biases| == |layers|
    && (forall l :: 0 <= l < |layers| && acc.weights[l].Some? ==> SameShape(acc.weights[l].value, layers[l].weights))
    && (forall l :: 0 <= l < |layers| && acc.biases[l].Some? && layers[l].biases.Some? ==>
          |acc.biases[l].value| == |layers[l].biases.value|)
  }

  /** Every sum is allocated. */
  predicate AllAllocated(layers: seq<Layer>, acc: Accumulators)
    requires |acc.weights| == |layers| && |acc.biases| == |layers|
  {
    forall l :: 0 <= l < |layers| ==> acc.weights[l].Some? && (layers[l].biases.Some? ==> acc.biases[l].Some?)
  }

  /** Layer k's sums in `to` are its sums in `from` plus, entry by entry, the
      gradients `gs` added up. */
  predicate LayerSumsAdd(layers: seq<Layer>, k: nat, from: Accumulators, to: Accumulators, gs: seq<Gradient>)
    requires SumsFit(layers, from) && SumsFit(layers, to) && k < |layers|
  {
    && (forall row, col :: 0 <= row < layers[k].weights.rows && 0 <= col < layers[k].weights.cols ==>
          WeightSumOrZero(layers[k], to.weights[k]).cells[row][col]
            == WeightSumOrZero(layers[k], from.weights[k]).cells[row][col] + WeightGradientSum(gs, k, row, col))
    && (layers[k].biases.Some? ==> forall i :: 0 <= i < |layers[k].biases.value| ==>
          BiasSumOrZero(layers[k], to.biases[k])[i]
            == BiasSumOrZero(layers[k], from.biases[k])[i] + BiasGradientSum(gs, k, i))
  }

  /** `to` holds the sums `from` plus, entry by entry, the gradients `gs`. */
  predicate SumsAdd(layers: seq<Layer>, from: Accumulators, to: Accumulators, gs: seq<Gradient>)
    requires SumsFit(layers, from) && SumsFit(layers, to)
  {
    forall k :: 0 <= k < |layers| ==> LayerSumsAdd(layers, k, from, to, gs)
  }

  /** Adding one gradient into sums that fit: the sums still fit, all are
      allocated, the gradient fits the layers, and each entry grew by the
      gradient's entry. */
  lemma AccumulateAddsGradient(layers: seq<Layer>, before: Accumulators, g: Gradient, out: Accumulators)
    requires SumsFit(layers, before)
    requires |g.weights| == |layers| && |g.biases| == |layers|
    requires Accumulate(layers, before, g, 0) == Ok(out)
    ensures SumsFit(layers, out) && AllAllocated(layers, out) && GradientFits(layers, g)
    ensures SumsAdd(layers, before, out, [g])
  {
    AccumulateKeepsFit(layers, before, g, out);
    forall k | 0 <= k < |layers|
      ensures LayerSumsAdd(layers, k, before, out, [g])
    {
      AccumulateLayerAdds(layers, k, before, out, g);
    }
  }

  /** Adding a gradient that Accumulate accepts leaves sums that fit, all allocated. */
  lemma AccumulateKeepsFit(layers: seq<Layer>, before: Accumulators, g: Gradient, out: Accumulators)
    requires SumsFit(layers, before)
    requires |g.weights| == |layers| && |g.biases| == |layers|
    requires Accumulate(layers, before, g, 0) == Ok(out)
    ensures SumsFit(layers, out) && AllAllocated(layers, out) && GradientFits(layers, g)
  {
    forall l | 0 <= l < |layers|
      ensures AccumulateLayer(layers[l], before.weights[l], before.biases[l], g.weights[l], g.biases[l])
                == Ok((out.weights[l], out.biases[l]))
    {
    }
  }

  /** One layer's share of AccumulateAddsGradient. */
  lemma AccumulateLayerAdds(layers: seq<Layer>, k: nat, before: Accumulators, out: Accumulators, g: Gradient)
    requires SumsFit(layers, before) && SumsFit(layers, out) && k < |layers|
    requires |g.weights| == |layers| && |g.biases| == |layers|
    requires Accumulate(layers, before, g, 0) == Ok(out)
    ensures LayerSumsAdd(layers, k, before, out, [g])
  {
    assert AccumulateLayer(layers[k], before.weights[k], before.biases[k], g.weights[k], g.biases[k])
             == Ok((out.weights[k], out.biases[k]));
    forall row, col | 0 <= row < layers[k].weights.rows && 0 <= col < layers[k].weights.cols
      ensures WeightGradientSum([g], k, row, col) == g.weights[k].cells[row][col]
    {
      assert [g][..0] == [];
    }
    if layers[k].biases.Some? {
      forall i | 0 <= i < |layers[k].biases.value|
        ensures BiasGradientSum([g], k, i) == g.biases[k].value[i]
      {
        assert [g][..0] == [];
      }
    }
  }

  /** A point step that succeeds has a gradient, and its sums are that gradient
      added into the sums before. */
  lemma PointStepAccumulatesGradient(net: Network, p: TrainingPoint, before: Accumulators, rss: Vector, exp: ExpFn)
    requires |before.weights| == |net.layers| && |before.biases| == |net.layers|
    requires PointStep(net, p, before, rss, exp).Ok?
    ensures PointGradient(net, p, exp).Ok?
    ensures Accumulate(net.layers, before, PointGradient(net, p, exp).value, 0) == Ok(PointStep(net, p, before, rss, exp).value.0)
  {
  }

  /** The sums over some gradients, then one gradient more, make the sums over
      all of them. */
  lemma SumsAddLast(layers: seq<Layer>, a: Accumulators, b: Accumulators, c: Accumulators, gs: seq<Gradient>, g: Gradient)
    requires SumsFit(layers, a) && SumsFit(layers, b) && SumsFit(layers, c) && GradientFits(layers, g)
    requires SumsAdd(layers, a, b, gs)
    requires SumsAdd(layers, b, c, [g])
    ensures SumsAdd(layers, a, c, gs + [g])
  {
    var all := gs + [g];
    assert all[..|all| - 1] == gs && all[|all| - 1] == g;
    assert [g][..0] == [];
    forall k | 0 <= k < |layers|
      ensures LayerSumsAdd(layers, k, a, c, all)
    {
      assert LayerSumsAdd(layers, k, a, b, gs);
      assert LayerSumsAdd(layers, k, b, c, [g]);
      forall row, col | 0 <= row < layers[k].weights.rows && 0 <= col < layers[k].weights.cols
        ensures WeightSumOrZero(layers[k], c.weights[k]).cells[row][col]
                  == WeightSumOrZero(layers[k], a.weights[k]).cells[row][col] + WeightGradientSum(all, k, row, col)
      {
        assert WeightGradientSum([g], k, row, col) == g.weights[k].cells[row][col];
        assert WeightGradientSum(all, k, row, col) == WeightGradientSum(gs, k, row, col) + g.weights[k].cells[row][col];
      }
      if layers[k].biases.Some? {
        forall i | 0 <= i < |layers[k].biases.value|
          ensures BiasSumOrZero(layers[k], c.biases[k])[i]
                    == BiasSumOrZero(layers[k], a.biases[k])[i] + BiasGradientSum(all, k, i)
        {
          assert BiasGradientSum([g], k, i) == g.biases[k].value[i];
          assert BiasGradientSum(all, k, i) == BiasGradientSum(gs, k, i) + g.biases[k].value[i];
        }
      }
    }
  }

  /** A pass adds the batch gradient onto the sums it starts from: every point
      has a gradient at the current network, and entry by entry the sums after
      the pass are the sums before plus those gradients added up. After a pass
      over at least one point every sum is allocated. */
  lemma {:induction false} SweepAddsGradients(net: Network, points: seq<TrainingPoint>, acc: Accumulators,
                                               rss: Vector, exp: ExpFn)
    requires SumsFit(net.layers, acc)
    requires Sweep(net, points, acc, rss, exp).Ok?
    ensures PointGradients(net, points, exp).Ok?
    ensures SumsFit(net.layers, Sweep(net, points, acc, rss, exp).value.0)
    ensures |points| > 0 ==> AllAllocated(net.layers, Sweep(net, points, acc, rss, exp).value.0)
    ensures SumsAdd(net.layers, acc, Sweep(net, points, acc, rss, exp).value.0, PointGradients(net, points, exp).value)
    decreases |points|
  {
    var layers := net.layers;
    if |points| == 0 {
      var gs := PointGradients(net, points, exp).value;
      forall k | 0 <= k < |layers|
        ensures LayerSumsAdd(layers, k, acc, acc, gs)
      {
      }
    } else {
      var init := points[..|points| - 1];
      var p := points[|points| - 1];
      SweepAddsGradients(net, init, acc, rss, exp);
      var before := Sweep(net, init, acc, rss, exp).value;
      var out := Sweep(net, points, acc, rss, exp).value.0;
      assert Sweep(net, points, acc, rss, exp) == PointStep(net, p, before.0, before.1, exp);
      PointStepAccumulatesGradient(net, p, before.0, before.1, exp);
      var g := PointGradient(net, p, exp).value;
      AccumulateAddsGradient(layers, before.0, g, out);
      assert PointGradients(net, points, exp) == Ok(PointGradients(net, init, exp).value + [g]);
      SumsAddLast(layers, acc, before.0, out, PointGradients(net, init, exp).value, g);
    }
  }

  /** Dividing a rate in range by a positive count keeps it in range. */
  lemma DividedRateInRange(rate: real, n: nat)
    requires RateInRange(rate) && n > 0
    ensures RateInRange(rate / (n as real))
  {
    var q := rate / (n as real);
    assert q * (n as real) == rate;
  }

  /** Layer k of `next` is layer k of `net` moved by −step times the sum of the
      gradients `gs`: every weight and every bias. */
  predicate LayerBatchStep(net: Network, k: nat, next: Network, gs: seq<Gradient>, step: real)
    requires k < |net.layers| && k < |next.layers|
  {
    && SameLayerShape(next.layers[k], net.layers[k])
    && (forall row, col :: 0 <= row < net.layers[k].weights.rows && 0 <= col < net.layers[k].weights.cols ==>
          next.layers[k].weights.cells[row][col]
            == net.layers[k].weights.cells[row][col] - WeightGradientSum(gs, k, row, col) * step)
    && (net.layers[k].biases.Some? ==> forall i :: 0 <= i < |net.layers[k].biases.value| ==>
          next.layers[k].biases.value[i] == net.layers[k].biases.value[i] - BiasGradientSum(gs, k, i) * step)
  }

  /** `next` is `net` moved by −step times the sum of the gradients `gs`. */
  predicate IsBatchGradientStep(net: Network, next: Network, gs: seq<Gradient>, step: real) {
    && |next.layers| == |net.layers|
    && forall k :: 0 <= k < |net.layers| ==> LayerBatchStep(net, k, next, gs, step)
  }

  /** The sum for layer k, entry (row, col), of the sums `acc` carried in plus
      the gradients `gs`. */
  function CarriedWeight(l: Layer, sw: Option<Mat>, gs: seq<Gradient>, k: nat, row: nat, col: nat): real
    requires sw.Some? ==> SameShape(sw.value, l.weights)
    requires row < l.weights.rows && col < l.weights.cols
  {
    WeightSumOrZero(l, sw).cells[row][col] + WeightGradientSum(gs, k, row, col)
  }

  function CarriedBias(l: Layer, sb: Option<Vector>, gs: seq<Gradient>, k: nat, i: nat): real
    requires l.biases.Some? && (sb.Some? ==> |sb.value| == |l.biases.value|)
    requires i < |l.biases.value|
  {
    BiasSumOrZero(l, sb)[i] + BiasGradientSum(gs, k, i)
  }

  /** Layer k of `next` is layer k of `net` moved by −step times the sums `acc`
      carried in from earlier passes plus the gradients `gs`. */
  predicate LayerCarriedStep(net: Network, k: nat, next: Network, acc: Accumulators, gs: seq<Gradient>, step: real)
    requires SumsFit(net.layers, acc) && k < |net.layers| && k < |next.layers|
  {
    && SameLayerShape(next.layers[k], net.layers[k])
    && (forall row, col :: 0 <= row < net.layers[k].weights.rows && 0 <= col < net.layers[k].weights.cols ==>
          next.layers[k].weights.cells[row][col]
            == net.layers[k].weights.cells[row][col] - CarriedWeight(net.layers[k], acc.weights[k], gs, k, row, col) * step)
    && (net.layers[k].biases.Some? ==> forall i :: 0 <= i < |net.layers[k].biases.value| ==>
          next.layers[k].biases.value[i]
            == net.layers[k].biases.value[i] - CarriedBias(net.layers[k], acc.biases[k], gs, k, i) * step)
  }

  /** `next` is `net` moved by −step times the sums `acc` plus the gradients `gs`. */
  predicate IsCarriedStep(net: Network, next: Network, acc: Accumulators, gs: seq<Gradient>, step: real)
    requires SumsFit(net.layers, acc)
  {
    && |next.layers| == |net.layers|
    && forall k :: 0 <= k < |net.layers| ==> LayerCarriedStep(net, k, next, acc, gs, step)
  }

  /** Layer `next` is layer l moved by −step times its sums. */
  predicate LayerStepsAlong(l: Layer, next: Layer, sw: Option<Mat>, sb: Option<Vector>, step: real)
    requires sw.Some? ==> SameShape(sw.value, l.weights)
    requires l.biases.Some? && sb.Some? ==> |sb.value| == |l.biases.value|
  {
    && SameLayerShape(next, l)
    && (forall row, col :: 0 <= row < l.weights.rows && 0 <= col < l.weights.cols ==>
          next.weights.cells[row][col] == l.weights.cells[row][col] - WeightSumOrZero(l, sw).cells[row][col] * step)
    && (l.biases.Some? ==> forall i :: 0 <= i < |l.biases.value| ==>
          next.biases.value[i] == l.biases.value[i] - BiasSumOrZero(l, sb)[i] * step)
  }

  /** `next` is `net` moved by −step times the sums `acc`. */
  predicate StepsAlong(net: Network, next: Network, acc: Accumulators, step: real)
    requires SumsFit(net.layers, acc)
  {
    && |next.layers| == |net.layers|
    && forall l :: 0 <= l < |net.layers| ==>
         LayerStepsAlong(net.layers[l], next.layers[l], acc.weights[l], acc.biases[l], step)
  }

  /** A layer's step along an allocated sum is the step along that sum. */
  lemma TrainLayerAlongSum(l: Layer, step: real, sw: Option<Mat>, sb: Option<Vector>, next: Layer)
    requires sw.Some? && SameShape(sw.value, l.weights)
    requires l.biases.Some? ==> sb.Some? && |sb.value| == |l.biases.value|
    requires TrainLayer(l, step, sw, sb) == Ok(next)
    ensures LayerStepsAlong(l, next, sw, sb, step)
  {
    assert WeightSumOrZero(l, sw) == sw.value;
    assert l.biases.Some? ==> BiasSumOrZero(l, sb) == sb.value;
  }

  /** Train along allocated sums that fit succeeds, and steps along them. */
  lemma TrainAlongSums(net: Network, step: real, acc: Accumulators)
    requires SumsFit(net.layers, acc) && AllAllocated(net.layers, acc) && RateInRange(step)
    ensures Train(net, step, acc.weights, acc.biases).Ok?
    ensures StepsAlong(net, Train(net, step, acc.weights, acc.biases).value, acc, step)
  {
    forall l | 0 <= l < |net.layers|
      ensures UpdateFits(net.layers[l], acc.weights[l], acc.biases[l])
    {
    }
    var next := Train(net, step, acc.weights, acc.biases).value;
    forall l | 0 <= l < |net.layers|
      ensures LayerStepsAlong(net.layers[l], next.layers[l], acc.weights[l], acc.biases[l], step)
    {
      TrainLayerAlongSum(net.layers[l], step, acc.weights[l], acc.biases[l], next.layers[l]);
    }
  }

  /** One layer: stepping along its sums after a pass is its carried step. */
  lemma LayerStepAfterPass(net: Network, k: nat, next: Network, start: Accumulators, sums: Accumulators,
                           gs: seq<Gradient>, step: real)
    requires SumsFit(net.layers, start) && SumsFit(net.layers, sums) && k < |net.layers| && k < |next.layers|
    requires LayerSumsAdd(net.layers, k, start, sums, gs)
    requires LayerStepsAlong(net.layers[k], next.layers[k], sums.weights[k], sums.biases[k], step)
    ensures LayerCarriedStep(net, k, next, start, gs, step)
  {
    WeightsStepAfterPass(net, k, next, start, sums, gs, step);
    if net.layers[k].biases.Some? {
      BiasesStepAfterPass(net, k, next, start, sums, gs, step);
    }
  }

  /** The weight half of LayerStepAfterPass. */
  lemma WeightsStepAfterPass(net: Network, k: nat, next: Network, start: Accumulators, sums: Accumulators,
                             gs: seq<Gradient>, step: real)
    requires SumsFit(net.layers, start) && SumsFit(net.layers, sums) && k < |net.layers| && k < |next.layers|
    requires LayerSumsAdd(net.layers, k, start, sums, gs)
    requires LayerStepsAlong(net.layers[k], next.layers[k], sums.weights[k], sums.biases[k], step)
    ensures forall row, col :: 0 <= row < net.layers[k].weights.rows && 0 <= col < net.layers[k].weights.cols ==>
              next.layers[k].weights.cells[row][col]
                == net.layers[k].weights.cells[row][col] - CarriedWeight(net.layers[k], start.weights[k], gs, k, row, col) * step
  {
    var l := net.layers[k];
    forall row, col | 0 <= row < l.weights.rows && 0 <= col < l.weights.cols
      ensures next.layers[k].weights.cells[row][col]
                == l.weights.cells[row][col] - CarriedWeight(l, start.weights[k], gs, k, row, col) * step
    {
      assert WeightSumOrZero(l, sums.weights[k]).cells[row][col] == CarriedWeight(l, start.weights[k], gs, k, row, col);
    }
  }

  /** The bias half of LayerStepAfterPass. */
  lemma BiasesStepAfterPass(net: Network, k: nat, next: Network, start: Accumulators, sums: Accumulators,
                            gs: seq<Gradient>, step: real)
    requires SumsFit(net.layers, start) && SumsFit(net.layers, sums) && k < |net.layers| && k < |next.layers|
    requires net.layers[k].biases.Some?
    requires LayerSumsAdd(net.layers, k, start, sums, gs)
    requires LayerStepsAlong(net.layers[k], next.layers[k], sums.weights[k], sums.biases[k], step)
    ensures forall i :: 0 <= i < |net.layers[k].biases.value| ==>
              next.layers[k].biases.value[i]
                == net.layers[k].biases.value[i] - CarriedBias(net.layers[k], start.biases[k], gs, k, i) * step
  {
    var l := net.layers[k];
    forall i | 0 <= i < |l.biases.value|
      ensures next.layers[k].biases.value[i] == l.biases.value[i] - CarriedBias(l, start.biases[k], gs, k, i) * step
    {
      assert BiasSumOrZero(l, sums.biases[k])[i] == CarriedBias(l, start.biases[k], gs, k, i);
    }
  }

  /** Stepping along the sums after a pass is the carried step over that pass. */
  lemma StepAfterPassIsCarried(net: Network, next: Network, start: Accumulators, sums: Accumulators,
                               gs: seq<Gradient>, step: real)
    requires SumsFit(net.layers, start) && SumsFit(net.layers, sums)
    requires SumsAdd(net.layers, start, sums, gs)
    requires StepsAlong(net, next, sums, step)
    ensures IsCarriedStep(net, next, start, gs, step)
  {
    forall k | 0 <= k < |net.layers|
      ensures LayerCarriedStep(net, k, next, start, gs, step)
    {
      LayerStepAfterPass(net, k, next, start, sums, gs, step);
    }
  }

  /** A pass that starts from the sums `acc` and fails the R² test is followed by
      a step along `acc` plus every point's gradient at the current network,
      scaled by rate/|points|, and then by the next pass. */
  lemma PassStepsAlongSums(net: Network, points: seq<TrainingPoint>, minR2: real, rate: real, tss: Vector,
                           acc: Accumulators, reset: bool, j: nat, exp: ExpFn, pass: (Accumulators, Vector))
    requires 0.0 < minR2 <= 1.0 && RateInRange(rate)
    requires forall i :: 0 <= i < |tss| ==> tss[i] >= 0.0
    requires |acc.weights| == |net.layers| && |acc.biases| == |net.layers|
    requires j < MaxTries
    requires SumsFit(net.layers, if reset then NoAccumulators(|net.layers|) else acc)
    requires Sweep(net, points, if reset then NoAccumulators(|net.layers|) else acc, ZeroVector(|tss|), exp) == Ok(pass)
    requires |pass.1| == |tss| && !AllPass(pass.1, tss, minR2)
    ensures |points| > 0 && PointGradients(net, points, exp).Ok?
    ensures Train(net, rate / (|points| as real), pass.0.weights, pass.0.biases).Ok?
    ensures IsCarriedStep(net, Train(net, rate / (|points| as real), pass.0.weights, pass.0.biases).value,
                          if reset then NoAccumulators(|net.layers|) else acc, PointGradients(net, points, exp).value,
                          rate / (|points| as real))
    ensures BatchLoop(net, points, minR2, rate, tss, acc, reset, j, exp)
              == BatchLoop(Train(net, rate / (|points| as real), pass.0.weights, pass.0.biases).value,
                           points, minR2, rate, tss, pass.0, reset, j + 1, exp)
  {
    var start := if reset then NoAccumulators(|net.layers|) else acc;
    SweepComputesResiduals(net, points, start, |tss|, exp);
    ZeroResidualsPass(tss, minR2);
    assert |points| > 0;
    var step := rate / (|points| as real);
    DividedRateInRange(rate, |points|);
    SweepAddsGradients(net, points, start, ZeroVector(|tss|), exp);
    TrainAlongSums(net, step, pass.0);
    var next := Train(net, step, pass.0.weights, pass.0.biases).value;
    StepAfterPassIsCarried(net, next, start, pass.0, PointGradients(net, points, exp).value, step);
    BatchLoopSteps(net, points, minR2, rate, tss, acc, reset, j, exp, pass, next);
  }

  /** A step carried from no sums is a plain batch gradient step. */
  lemma CarriedFromNothing(net: Network, next: Network, gs: seq<Gradient>, step: real)
    requires IsCarriedStep(net, next, NoAccumulators(|net.layers|), gs, step)
    ensures IsBatchGradientStep(net, next, gs, step)
  {
    var none := NoAccumulators(|net.layers|);
    forall k | 0 <= k < |net.layers|
      ensures LayerBatchStep(net, k, next, gs, step)
    {
      assert LayerCarriedStep(net, k, next, none, gs, step);
      var l := net.layers[k];
      forall row, col | 0 <= row < l.weights.rows && 0 <= col < l.weights.cols
        ensures CarriedWeight(l, none.weights[k], gs, k, row, col) == WeightGradientSum(gs, k, row, col)
      {
      }
      if l.biases.Some? {
        forall i | 0 <= i < |l.biases.value|
          ensures CarriedBias(l, none.biases[k], gs, k, i) == BiasGradientSum(gs, k, i)
        {
        }
      }
    }
  }

  /** With the sums restarted, every pass that fails the R² test steps along the
      batch gradient, the sum of every point's gradient at the current network,
      scaled by rate/|points|: plain batch gradient descent. */
  lemma RestartedPassIsBatchGradientStep(net: Network, points: seq<TrainingPoint>, minR2: real, rate: real,
                                         tss: Vector, acc: Accumulators, j: nat, exp: ExpFn, pass: (Accumulators, Vector))
    requires 0.0 < minR2 <= 1.0 && RateInRange(rate)
    requires forall i :: 0 <= i < |tss| ==> tss[i] >= 0.0
    requires |acc.weights| == |net.layers| && |acc.biases| == |net.layers|
    requires j < MaxTries
    requires Sweep(net, points, NoAccumulators(|net.layers|), ZeroVector(|tss|), exp) == Ok(pass)
    requires |pass.1| == |tss| && !AllPass(pass.1, tss, minR2)
    ensures |points| > 0 && PointGradients(net, points, exp).Ok?
    ensures Train(net, rate / (|points| as real), pass.0.weights, pass.0.biases).Ok?
    ensures IsBatchGradientStep(net, Train(net, rate / (|points| as real), pass.0.weights, pass.0.biases).value,
                                PointGradients(net, points, exp).value, rate / (|points| as real))
    ensures BatchLoop(net, points, minR2, rate, tss, acc, true, j, exp)
              == BatchLoop(Train(net, rate / (|points| as real), pass.0.weights, pass.0.biases).value,
                           points, minR2, rate, tss, pass.0, true, j + 1, exp)
  {
    PassStepsAlongSums(net, points, minR2, rate, tss, acc, true, j, exp, pass);
    var step := rate / (|points| as real);
    CarriedFromNothing(net, Train(net, step, pass.0.weights, pass.0.biases).value, PointGradients(net, points, exp).value, step);
  }

  /** As written, the sums carry over: every pass that fails the R² test steps
      along the sums of all earlier passes plus every point's gradient at the
      current network. */
  lemma AsWrittenPassCarriesSums(net: Network, points: seq<TrainingPoint>, minR2: real, rate: real,
                                 tss: Vector, acc: Accumulators, j: nat, exp: ExpFn, pass: (Accumulators, Vector))
    requires 0.0 < minR2 <= 1.0 && RateInRange(rate)
    requires forall i :: 0 <= i < |tss| ==> tss[i] >= 0.0
    requires SumsFit(net.layers, acc)
    requires j < MaxTries
    requires Sweep(net, points, acc, ZeroVector(|tss|), exp) == Ok(pass)
    requires |pass.1| == |tss| && !AllPass(pass.1, tss, minR2)
    ensures |points| > 0 && PointGradients(net, points, exp).Ok?
    ensures Train(net, rate / (|points| as real), pass.0.weights, pass.0.biases).Ok?
    ensures IsCarriedStep(net, Train(net, rate / (|points| as real), pass.0.weights, pass.0.biases).value,
                          acc, PointGradients(net, points, exp).value, rate / (|points| as real))
    ensures BatchLoop(net, points, minR2, rate, tss, acc, false, j, exp)
              == BatchLoop(Train(net, rate / (|points| as real), pass.0.weights, pass.0.biases).value,
                           points, minR2, rate, tss, pass.0, false, j + 1, exp)
  {
    PassStepsAlongSums(net, points, minR2, rate, tss, acc, false, j, exp, pass);
  }

  // ================================================================ mutation

  function MutateLayers(ls: seq<Layer>, lower: real, upper: real, stdDev: real, noise: nat -> LayerNoise,
                        offset: nat): (r: Result<seq<Layer>>)
    ensures r.Err? <==> |ls| > 0 && (stdDev <= 0.0 || lower >= upper)
    ensures r.Ok? ==> |r.value| == |ls|
    ensures r.Ok? ==> forall i :: 0 <= i < |ls| ==>
              Mutate(ls[i], lower, upper, stdDev, noise(offset + i)) == Ok(r.value[i])
    decreases |ls|
  {
    if |ls| == 0 then Ok([])
    else
      var first :- Mutate(ls[0], lower, upper, stdDev, noise(offset));
      var rest := MutateLayers(ls[1..], lower, upper, stdDev, noise, offset + 1).value;
      var all := [first] + rest;
      assert forall i :: 0 < i < |ls| ==> all[i] == rest[i - 1];
      assert forall i :: 0 < i < |ls| ==> ls[i] == ls[1..][i - 1];
      Ok(all)
  }

  /** Mutate: every layer mutates in order with its own draws `noise(i)`. The
      arguments are checked by the first layer, so a network without layers
      accepts any. Shapes, bias presence and transfer functions are kept. */
  function MutateNetwork(net: Network, lower: real, upper: real, stdDev: real, noise: nat -> LayerNoise): (r: Result<Network>)
    ensures r.Err? <==> |net.layers| > 0 && (stdDev <= 0.0 || lower >= upper)
    ensures r.Ok? ==> SameNetShape(r.value, net)
    ensures r.Ok? ==> forall i :: 0 <= i < |net.layers| ==>
              Mutate(net.layers[i], lower, upper, stdDev, noise(i)) == Ok(r.value.layers[i])
  {
    var ls :- MutateLayers(net.layers, lower, upper, stdDev, noise, 0);
    Ok(Network(ls))
  }

  /** Mutation keeps a network well-formed. */
  lemma MutateKeepsWellFormed(net: Network, lower: real, upper: real, stdDev: real, noise: nat -> LayerNoise)
    requires WellFormed(net) && MutateNetwork(net, lower, upper, stdDev, noise).Ok?
    ensures WellFormed(MutateNetwork(net, lower, upper, stdDev, noise).value)
  {
    var mutated := MutateNetwork(net, lower, upper, stdDev, noise).value;
    SameNetShapeSymmetric(mutated, net);
    SameShapeKeepsWellFormed(net, mutated);
  }

  /** The argument-free Mutate, with bounds [−1, 1] and standard deviation 0.1, never fails. */
  lemma DefaultMutateSucceeds(net: Network, noise: nat -> LayerNoise)
    ensures MutateNetwork(net, DefaultLowerWeightLimit, DefaultUpperWeightLimit, DefaultMutateStdDev, noise).Ok?
  {
  }
}
