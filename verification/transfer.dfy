/** The two fixed transfer functions of the network engine
    (Components/TransferFunction.cs). The constructor of the original class is
    private, so exactly these two instances exist: a closed variant. */
module Transfer {

  /** `Math.Exp`, supplied by the caller. The model only relies on its values
      being positive, which keeps LogSigmoid's divisions defined. */
  type ExpFn = f: real -> real | forall x: real :: f(x) > 0.0 witness (x: real) => 1.0

  datatype TransferFunction = LogSigmoid | PureLine

  /** The value of the transfer function at x: `1/(1 + e^-x)` or x itself. */
  function Value(tf: TransferFunction, exp: ExpFn, x: real): (y: real)
    ensures tf == PureLine ==> y == x
    ensures tf == LogSigmoid ==> 0.0 < y < 1.0
  {
    match tf
    case LogSigmoid => 1.0 / (1.0 + exp(-1.0 * x))
    case PureLine => x
  }

  /** The derivative of the transfer function at x: `e^-x / (1 + e^-x)²` or 1. */
  function Derivative(tf: TransferFunction, exp: ExpFn, x: real): (d: real)
    ensures tf == PureLine ==> d == 1.0
    ensures tf == LogSigmoid ==> 0.0 < d < 1.0
  {
    match tf
    case LogSigmoid =>
      var e := exp(-1.0 * x);
      LogisticSlopeBounds(e);
      e / ((1.0 + e) * (1.0 + e))
    case PureLine => 1.0
  }

  /** For a positive e, `e / (1 + e)²` lies strictly between 0 and 1, since the
      square exceeds e and is positive. */
  lemma LogisticSlopeBounds(e: real)
    requires e > 0.0
    ensures 0.0 < e / ((1.0 + e) * (1.0 + e)) < 1.0
  {
    var q := (1.0 + e) * (1.0 + e);
    assert q == 1.0 + 2.0 * e + e * e;
    assert e * e >= 0.0;
    assert 0.0 < e < q;
    var r := e / q;
    assert r * q == e;
    assert 0.0 < r;
    assert r < 1.0;
  }

  /** The logistic derivative written in terms of the logistic value, σ' = σ(1 − σ):
      the two halves of the LogSigmoid instance agree. */
  lemma LogSigmoidDerivativeIsProduct(exp: ExpFn, x: real)
    ensures Derivative(LogSigmoid, exp, x)
         == Value(LogSigmoid, exp, x) * (1.0 - Value(LogSigmoid, exp, x))
  {
    var e := exp(-1.0 * x);
    var d := 1.0 + e;
    assert d > 0.0;
    var y := 1.0 / d;
    assert 1.0 - y == e / d by {
      assert y * d == 1.0;
      assert (1.0 - y) * d == d - 1.0;
    }
    assert y * (e / d) == e / (d * d);
  }
}
