/** A one-weight identity network trained in batch on a single point, followed
    by hand through its first two passes: with the derivative sums carried over
    from pass to pass (as the original is written) and with them restarted on
    every pass (as batch gradient descent intends). */
module BatchExample {
  import opened Outcomes
  import opened Matrices
  import opened Transfer
  import opened Layers
  import opened Training
  import opened Networks

  /** The network y = w·x: one 1×1 PureLine layer without biases. */
  function OneWeight(w: real): Network {
    Network([Layer(Matrix(1, 1, [[w]]), None, PureLine)])
  }

  /** The 1×1 matrix [[v]]. */
  function Single(v: real): Mat {
    Matrix(1, 1, [[v]])
  }

  /** The training point 1 ↦ 1. */
  function UnitPoint(): TrainingPoint {
    TrainingPoint([1.0], [1.0])
  }

  /** The cache the forward pass of input 1 leaves: the input and the PureLine slope 1. */
  function UnitCaches(): seq<LayerCache> {
    [LayerCache([1.0], Single(1.0))]
  }

  /** The forward pass of input 1 outputs w. */
  lemma OneWeightForward(w: real, exp: ExpFn)
    ensures Forward(OneWeight(w).layers, [1.0], exp) == Ok(([w], UnitCaches()))
  {
    var layers := OneWeight(w).layers;
    var l := layers[0];
    var x := [1.0];
    assert l.weights.cells[0] == [w];
    assert Dot([w], x) == Dot([], []) + w * 1.0 by {
      assert [w][..0] == [] && x[..0] == [];
    }
    assert PreActivation(l, x)[0] == w;
    var step := Calculate(l, x, exp).value;
    assert step.0 == [w];
    var c := step.1;
    assert c.input == [1.0];
    assert c.jacobian.cells[0] == [1.0];
    assert c.jacobian == Single(1.0);
    assert Calculate(l, x, exp) == Ok(([w], UnitCaches()[0]));
    assert layers[1..] == [];
    assert Forward(layers[1..], [w], exp) == Ok(([w], []));
    assert [UnitCaches()[0]] + [] == UnitCaches();
  }

  /** Back-propagating the error 1 − w gives the weight derivative −2(1 − w). */
  lemma OneWeightGradient(w: real)
    ensures ComputeDerivative(OneWeight(w), UnitCaches(), [1.0], [w]) == Ok(Gradient([Single(-2.0 * (1.0 - w))], [None]))
  {
    var net := OneWeight(w);
    var caches := UnitCaches();
    assert CachesFit(net.layers, caches);
    BackPropagation(net, caches, [1.0], [w]);
    var s := SensitivitiesFrom(net.layers, caches, [1.0], [w], 0).value;
    assert s[0][0] == -2.0 * 1.0 * (1.0 - w);
    var g := ComputeDerivative(net, caches, [1.0], [w]).value;
    var dw := g.weights[0];
    assert dw.cells[0][0] == s[0][0] * 1.0;
    assert dw.cells[0] == [-2.0 * (1.0 - w)];
    assert dw.cells == [[-2.0 * (1.0 - w)]];
    assert g.weights == [Single(-2.0 * (1.0 - w))];
    assert g.biases == [None];
  }

  /** The weight sum carried into a pass: the sum so far, or 0 when none is allocated. */
  function Carried(sw: Option<Mat>): real
    requires sw.Some? ==> sw.value.rows == 1 && sw.value.cols == 1
  {
    if sw.None? then 0.0 else sw.value.cells[0][0]
  }

  /** The squared residual res = (1 − w)² of the unit point, added to a zero sum. */
  lemma OneWeightResidual(w: real, res: real)
    requires res == Square(1.0 - w)
    ensures SquareOfResiduals([1.0], [w]) == Ok([res])
    ensures AddVec([0.0], [res]) == Ok([res])
  {
    var r := SquareOfResiduals([1.0], [w]).value;
    assert |r| == 1 && r[0] == res;
    assert r == [res];
    var t := AddVec([0.0], [res]).value;
    assert |t| == 1 && t[0] == 0.0 + res;
    assert t == [res];
  }

  /** Adding the derivative a into the sum (zero when not yet allocated) gives total. */
  lemma OneWeightAccumulate(w: real, sw: Option<Mat>, a: real, total: real)
    requires sw.Some? ==> sw.value.rows == 1 && sw.value.cols == 1
    requires total == Carried(sw) + a
    ensures Accumulate(OneWeight(w).layers, Accumulators([sw], [None]), Gradient([Single(a)], [None]), 0)
              == Ok(Accumulators([Some(Single(total))], [None]))
  {
    var layers := OneWeight(w).layers;
    var base := WeightSumOrZero(layers[0], sw);
    assert base.cells[0][0] == Carried(sw);
    var sums := AccumulateLayer(layers[0], sw, None, Single(a), None).value;
    var m := sums.0.value;
    assert m.cells[0][0] == total;
    assert m.cells[0] == [total];
    assert m.cells == [[total]];
    var after := Accumulators([sw][0 := sums.0], [None][0 := sums.1]);
    assert after == Accumulators([Some(m)], [None]);
    assert Accumulate(layers, after, Gradient([Single(a)], [None]), 1) == Ok(after);
  }

  /** The unit point's step: the residual (1 − w)² is added to the residual sum,
      and the weight derivative −2(1 − w) to the weight sum. */
  lemma OneWeightPointStep(w: real, sw: Option<Mat>, sum: real, res: real, exp: ExpFn)
    requires sw.Some? ==> sw.value.rows == 1 && sw.value.cols == 1
    requires sum == Carried(sw) - 2.0 * (1.0 - w) && res == Square(1.0 - w)
    ensures PointStep(OneWeight(w), UnitPoint(), Accumulators([sw], [None]), [0.0], exp)
              == Ok((Accumulators([Some(Single(sum))], [None]), [res]))
  {
    OneWeightForward(w, exp);
    OneWeightGradient(w);
    OneWeightAddPoint(w, sw, sum, res);
  }

  lemma OneWeightAddPoint(w: real, sw: Option<Mat>, sum: real, res: real)
    requires sw.Some? ==> sw.value.rows == 1 && sw.value.cols == 1
    requires sum == Carried(sw) - 2.0 * (1.0 - w) && res == Square(1.0 - w)
    ensures AddPoint(OneWeight(w), Accumulators([sw], [None]), [0.0], [1.0], [w], Gradient([Single(-2.0 * (1.0 - w))], [None]))
              == Ok((Accumulators([Some(Single(sum))], [None]), [res]))
  {
    OneWeightResidual(w, res);
    OneWeightAccumulate(w, sw, -2.0 * (1.0 - w), sum);
  }

  /** One pass over the training set made of the unit point alone: the weight
      sum grows by −2(1 − w) and the residual sum is (1 − w)². */
  lemma OneWeightPass(w: real, sw: Option<Mat>, sum: real, res: real, exp: ExpFn)
    requires sw.Some? ==> sw.value.rows == 1 && sw.value.cols == 1
    requires sum == Carried(sw) - 2.0 * (1.0 - w) && res == Square(1.0 - w)
    ensures Sweep(OneWeight(w), [UnitPoint()], Accumulators([sw], [None]), [0.0], exp)
              == Ok((Accumulators([Some(Single(sum))], [None]), [res]))
  {
    var points := [UnitPoint()];
    assert points[..0] == [];
    OneWeightPointStep(w, sw, sum, res, exp);
  }

  /** A step of size rate moves the one weight by −rate times its derivative sum. */
  lemma OneWeightStep(w: real, a: real, rate: real, w': real)
    requires RateInRange(rate) && w' == w - a * rate
    ensures Train(OneWeight(w), rate, [Some(Single(a))], [None]) == Ok(OneWeight(w'))
  {
    var next := Train(OneWeight(w), rate, [Some(Single(a))], [None]).value;
    var m := next.layers[0].weights;
    assert m.rows == 1 && m.cols == 1 && m.cells[0][0] == w - a * rate;
    assert m.cells[0] == [w - a * rate];
    assert m.cells == [[w - a * rate]];
    assert next.layers == OneWeight(w - a * rate).layers;
  }

  /** The unit point alone has a zero total sum of squares. */
  lemma UnitPointTotal(w: real)
    ensures TotalSumOfSquares(OneWeight(w), [UnitPoint()]) == Ok([0.0])
  {
    var points := [UnitPoint()];
    assert points[..0] == [];
    assert ExpectedSum(points, 0) == 1.0 by {
      assert ExpectedSum(points, 0) == ExpectedSum([], 0) + 1.0;
    }
    assert Mean(points, 0) == 1.0;
    assert SquaredDeviations(points, 0, 1.0) == 0.0 by {
      assert SquaredDeviations(points, 0, 1.0) == SquaredDeviations([], 0, 1.0) + Square(1.0 - 1.0);
    }
    var tss := TotalSumOfSquares(OneWeight(w), points).value;
    assert tss[0] == 0.0;
    assert tss == [0.0];
  }

  /** The first pass from weight 0, which both variants make alike (no sums
      exist yet): derivative −2, residual 1, and the step takes the weight to 0.2. */
  lemma FirstPassFromZero(exp: ExpFn)
    ensures Sweep(OneWeight(0.0), [UnitPoint()], Accumulators([None], [None]), [0.0], exp)
              == Ok((Accumulators([Some(Single(-2.0))], [None]), [1.0]))
    ensures Train(OneWeight(0.0), 0.1, [Some(Single(-2.0))], [None]) == Ok(OneWeight(0.2))
  {
    OneWeightStep(0.0, -2.0, 0.1, 0.2);
    OneWeightPass(0.0, None, -2.0, 1.0, exp);
  }

  /** The original's second pass, at weight 0.2, starts from the first pass's
      sum −2 and adds its own derivative −1.6 onto it: the step then uses −3.6
      and takes the weight to 0.56. */
  lemma AsWrittenSecondPassOvershoots(exp: ExpFn)
    ensures Sweep(OneWeight(0.2), [UnitPoint()], Accumulators([Some(Single(-2.0))], [None]), [0.0], exp)
              == Ok((Accumulators([Some(Single(-3.6))], [None]), [0.64]))
    ensures Train(OneWeight(0.2), 0.1, [Some(Single(-3.6))], [None]) == Ok(OneWeight(0.56))
  {
    OneWeightStep(0.2, -3.6, 0.1, 0.56);
    OneWeightPass(0.2, Some(Single(-2.0)), -3.6, 0.64, exp);
  }

  /** With the sums restarted, the second pass at weight 0.2 sums the gradient
      −1.6 of that weight alone, and the step takes the weight to 0.36. */
  lemma RestartedSecondPassFollowsGradient(exp: ExpFn)
    ensures Sweep(OneWeight(0.2), [UnitPoint()], Accumulators([None], [None]), [0.0], exp)
              == Ok((Accumulators([Some(Single(-1.6))], [None]), [0.64]))
    ensures Train(OneWeight(0.2), 0.1, [Some(Single(-1.6))], [None]) == Ok(OneWeight(0.36))
  {
    OneWeightStep(0.2, -1.6, 0.1, 0.36);
    OneWeightPass(0.2, None, -1.6, 0.64, exp);
  }

  /** The unit point's total sum of squares is 0, so a pass with a positive
      residual fails the R² test whatever the threshold. */
  lemma PositiveResidualFails(rss: real, minR2: real)
    requires rss > 0.0
    ensures !AllPass([rss], [0.0], minR2)
  {
    assert !R2Passes([rss][0], [0.0][0], minR2);
  }

  /** One turn of the training loop at weight w ≠ 1: the pass fails the R²
      test, its weight sum is the starting sum (the carried one, or zero when
      restarting) plus −2(1 − w), and the step moves the weight by −0.1 times
      that sum. */
  lemma UnitLoopStep(w: real, acc: Accumulators, carried: Option<Mat>, reset: bool, j: nat, j': nat, minR2: real, exp: ExpFn, sum: real, w': real)
    requires 0.0 < minR2 <= 1.0 && j < MaxTries && w != 1.0
    requires acc == Accumulators([carried], [None])
    requires carried.Some? ==> carried.value.rows == 1 && carried.value.cols == 1
    requires sum == Carried(if reset then None else carried) - 2.0 * (1.0 - w)
    requires w' == w - sum * 0.1 && j' == j + 1
    ensures BatchLoop(OneWeight(w), [UnitPoint()], minR2, 0.1, [0.0], acc, reset, j, exp)
              == BatchLoop(OneWeight(w'), [UnitPoint()], minR2, 0.1, [0.0],
                           Accumulators([Some(Single(sum))], [None]), reset, j', exp)
  {
    var pass := (Accumulators([Some(Single(sum))], [None]), [Square(1.0 - w)]);
    UnitStepTrains(w, sum, w');
    UnitPassSums(w, acc, carried, reset, sum, exp);
    PositiveResidualFails(Square(1.0 - w), minR2);
    BatchLoopSteps(OneWeight(w), [UnitPoint()], minR2, 0.1, [0.0], acc, reset, j, exp, pass, OneWeight(w'));
  }

  /** The loop's step over the unit point moves the weight to w − 0.1·sum. */
  lemma UnitStepTrains(w: real, sum: real, w': real)
    requires w' == w - sum * 0.1
    ensures Train(OneWeight(w), 0.1 / (|[UnitPoint()]| as real), [Some(Single(sum))], [None]) == Ok(OneWeight(w'))
  {
    OneWeightStep(w, sum, 0.1, w');
    UnitRate();
  }

  /** The loop's pass over the unit point, from the carried sums or from none. */
  lemma UnitPassSums(w: real, acc: Accumulators, carried: Option<Mat>, reset: bool, sum: real, exp: ExpFn)
    requires acc == Accumulators([carried], [None])
    requires carried.Some? ==> carried.value.rows == 1 && carried.value.cols == 1
    requires sum == Carried(if reset then None else carried) - 2.0 * (1.0 - w)
    ensures Sweep(OneWeight(w), [UnitPoint()], if reset then NoAccumulators(|OneWeight(w).layers|) else acc, ZeroVector(|[0.0]|), exp)
              == Ok((Accumulators([Some(Single(sum))], [None]), [Square(1.0 - w)]))
  {
    var sw := if reset then None else carried;
    assert (if reset then NoAccumulators(|OneWeight(w).layers|) else acc) == Accumulators([sw], [None]);
    assert ZeroVector(|[0.0]|) == [0.0];
    OneWeightPass(w, sw, sum, Square(1.0 - w), exp);
  }

  /** Over the single unit point the step is the rate itself. */
  lemma UnitRate()
    ensures 0.1 / (|[UnitPoint()]| as real) == 0.1
  {
  }

  /** Either variant's first pass from weight 0 fails the test and steps to 0.2. */
  lemma FirstLoopStep(minR2: real, reset: bool, exp: ExpFn)
    requires 0.0 < minR2 <= 1.0
    ensures BatchLoop(OneWeight(0.0), [UnitPoint()], minR2, 0.1, [0.0], NoAccumulators(1), reset, 0, exp)
              == BatchLoop(OneWeight(0.2), [UnitPoint()], minR2, 0.1, [0.0],
                           Accumulators([Some(Single(-2.0))], [None]), reset, 1, exp)
  {
    UnitLoopStep(0.0, NoAccumulators(1), None, reset, 0, 1, minR2, exp, -2.0, 0.2);
  }

  /** The original's second pass adds the derivative −1.6 at weight 0.2 onto
      the carried −2 and steps by −3.6 to 0.56. */
  lemma AsWrittenSecondLoopStep(minR2: real, exp: ExpFn)
    requires 0.0 < minR2 <= 1.0
    ensures BatchLoop(OneWeight(0.2), [UnitPoint()], minR2, 0.1, [0.0], Accumulators([Some(Single(-2.0))], [None]), false, 1, exp)
              == BatchLoop(OneWeight(0.56), [UnitPoint()], minR2, 0.1, [0.0],
                           Accumulators([Some(Single(-3.6))], [None]), false, 2, exp)
  {
    UnitLoopStep(0.2, Accumulators([Some(Single(-2.0))], [None]), Some(Single(-2.0)), false, 1, 2, minR2, exp, -3.6, 0.56);
  }

  /** The restarted second pass sums −1.6 alone and steps to 0.36. */
  lemma RestartedSecondLoopStep(minR2: real, exp: ExpFn)
    requires 0.0 < minR2 <= 1.0
    ensures BatchLoop(OneWeight(0.2), [UnitPoint()], minR2, 0.1, [0.0], Accumulators([Some(Single(-2.0))], [None]), true, 1, exp)
              == BatchLoop(OneWeight(0.36), [UnitPoint()], minR2, 0.1, [0.0],
                           Accumulators([Some(Single(-1.6))], [None]), true, 2, exp)
  {
    UnitLoopStep(0.2, Accumulators([Some(Single(-2.0))], [None]), Some(Single(-2.0)), true, 1, 2, minR2, exp, -1.6, 0.36);
  }

  /** The original's BatchTrain from weight 0 on the unit point, rate 0.1:
      after two passes the weight is 0.56 and the carried sum is −3.6. */
  lemma AsWrittenTwoPasses(minR2: real, exp: ExpFn)
    requires 0.0 < minR2 <= 1.0
    ensures BatchTrainAsWritten(OneWeight(0.0), [UnitPoint()], minR2, 0.1, exp)
              == BatchLoop(OneWeight(0.56), [UnitPoint()], minR2, 0.1, [0.0],
                           Accumulators([Some(Single(-3.6))], [None]), false, 2, exp)
  {
    UnitPointTotal(0.0);
    FirstLoopStep(minR2, false, exp);
    AsWrittenSecondLoopStep(minR2, exp);
  }

  /** The restarted BatchTrain from weight 0 on the unit point, rate 0.1: after
      two passes the weight is 0.36, the second pass's sum being its own
      gradient −1.6. */
  lemma RestartedTwoPasses(minR2: real, exp: ExpFn)
    requires 0.0 < minR2 <= 1.0
    ensures BatchTrainRestarted(OneWeight(0.0), [UnitPoint()], minR2, 0.1, exp)
              == BatchLoop(OneWeight(0.36), [UnitPoint()], minR2, 0.1, [0.0],
                           Accumulators([Some(Single(-1.6))], [None]), true, 2, exp)
  {
    UnitPointTotal(0.0);
    FirstLoopStep(minR2, true, exp);
    RestartedSecondLoopStep(minR2, exp);
  }
}
