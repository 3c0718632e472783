/** Dense linear algebra of the network engine (NeuralMath/Matrix.cs).
    Every operation returns a new value; shape errors are `DimensionMismatch`,
    bad mutation arguments are `InvalidArgument`. */
module Matrices {
  import opened Outcomes

  type Vector = seq<real>

  /** A rows × cols matrix with `cells[i][j]` in row i, column j. The dimensions
      are kept explicitly so that a 0 × n matrix still has n columns. */
  datatype Matrix = Matrix(rows: nat, cols: nat, cells: seq<seq<real>>)

  type Mat = m: Matrix | |m.cells| == m.rows && forall i :: 0 <= i < m.rows ==> |m.cells[i]| == m.cols
    witness Matrix(0, 0, [])

  /** The draw `RandomGaussianDistribution(mean, stdDev)` yields for element (i, j)
      of the array being filled or mutated. */
  type Sampler = (nat, nat, real, real) -> real

  predicate SameShape(a: Mat, b: Mat) {
    a.rows == b.rows && a.cols == b.cols
  }

  /** The rows × cols matrix of zeros (a freshly allocated `double[rows, cols]`). */
  function Zeros(rows: nat, cols: nat): (z: Mat)
    ensures z.rows == rows && z.cols == cols
    ensures forall i, j :: 0 <= i < rows && 0 <= j < cols ==> z.cells[i][j] == 0.0
  {
    Matrix(rows, cols, seq(rows, i => seq(cols, j => 0.0)))
  }

  /** The length-n vector of zeros (a freshly allocated `double[n]`). */
  function ZeroVector(n: nat): (z: Vector)
    ensures |z| == n && forall i :: 0 <= i < n ==> z[i] == 0.0
  {
    seq(n, i => 0.0)
  }

  // ---------------------------------------------------------------- add / subtract

  /** Two-dimensional Add: fails unless both dimensions agree. */
  function Add(l: Mat, r: Mat): (o: Result<Mat>)
    ensures o.Err? <==> !SameShape(l, r)
    ensures o.Err? ==> o.error == DimensionMismatch
    ensures o.Ok? ==> SameShape(o.value, l)
    ensures o.Ok? ==> forall i, j :: 0 <= i < l.rows && 0 <= j < l.cols ==>
                        o.value.cells[i][j] == l.cells[i][j] + r.cells[i][j]
  {
    if l.rows != r.rows || l.cols != r.cols then Err(DimensionMismatch)
    else Ok(Matrix(l.rows, l.cols,
      seq(l.rows, i requires 0 <= i < l.rows =>
        seq(l.cols, j requires 0 <= j < l.cols => l.cells[i][j] + r.cells[i][j]))))
  }

  /** Two-dimensional Subtract, `l − r`: fails unless both dimensions agree. */
  function Subtract(l: Mat, r: Mat): (o: Result<Mat>)
    ensures o.Err? <==> !SameShape(l, r)
    ensures o.Err? ==> o.error == DimensionMismatch
    ensures o.Ok? ==> SameShape(o.value, l)
    ensures o.Ok? ==> forall i, j :: 0 <= i < l.rows && 0 <= j < l.cols ==>
                        o.value.cells[i][j] == l.cells[i][j] - r.cells[i][j]
  {
    if l.rows != r.rows || l.cols != r.cols then Err(DimensionMismatch)
    else Ok(Matrix(l.rows, l.cols,
      seq(l.rows, i requires 0 <= i < l.rows =>
        seq(l.cols, j requires 0 <= j < l.cols => l.cells[i][j] - r.cells[i][j]))))
  }

  /** `(l − r) + r == l`: Subtract and Add undo each other. */
  lemma SubtractThenAdd(l: Mat, r: Mat)
    requires SameShape(l, r)
    ensures Subtract(l, r).Ok? && Add(Subtract(l, r).value, r) == Ok(l)
  {
    var d := Subtract(l, r).value;
    var s := Add(d, r).value;
    assert s.cells == l.cells by {
      forall i | 0 <= i < l.rows
        ensures s.cells[i] == l.cells[i]
      {
        assert |s.cells[i]| == |l.cells[i]|;
        forall j | 0 <= j < l.cols
          ensures s.cells[i][j] == l.cells[i][j]
        {
          assert s.cells[i][j] == d.cells[i][j] + r.cells[i][j];
        }
      }
    }
  }

  /** Adding the zero matrix of the same shape changes nothing (A + 0 = A). */
  lemma AddZero(a: Mat)
    ensures Add(a, Zeros(a.rows, a.cols)) == Ok(a)
  {
    var s := Add(a, Zeros(a.rows, a.cols)).value;
    assert s.cells == a.cells by {
      forall i | 0 <= i < a.rows
        ensures s.cells[i] == a.cells[i]
      {
        assert |s.cells[i]| == |a.cells[i]|;
      }
    }
  }

  /** Add is commutative: both orders fail together or agree. */
  lemma AddCommutes(l: Mat, r: Mat)
    ensures Add(l, r) == Add(r, l)
  {
    if SameShape(l, r) {
      var a := Add(l, r).value;
      var b := Add(r, l).value;
      assert a.cells == b.cells by {
        forall i | 0 <= i < l.rows
          ensures a.cells[i] == b.cells[i]
        {
          assert |a.cells[i]| == |b.cells[i]|;
        }
      }
    }
  }

  // ---------------------------------------------------------------- row / column views

  /** SingleToTwoDimensionalMatrixRow: the 1 × n matrix holding v. */
  function RowView(v: Vector): (m: Mat)
    ensures m.rows == 1 && m.cols == |v|
    ensures forall j :: 0 <= j < |v| ==> m.cells[0][j] == v[j]
  {
    Matrix(1, |v|, [v])
  }

  /** SingleToTwoDimensionalMatrixColumn: the n × 1 matrix holding v. */
  function ColumnView(v: Vector): (m: Mat)
    ensures m.rows == |v| && m.cols == 1
    ensures forall i :: 0 <= i < |v| ==> m.cells[i][0] == v[i]
  {
    Matrix(|v|, 1, seq(|v|, i requires 0 <= i < |v| => [v[i]]))
  }

  /** TwoToSingleDimensionalMatrix: a matrix with a single row or a single column,
      read out as a vector. Anything else is rejected. A matrix whose row count is
      not 1 is read down its first column; otherwise along its first row. */
  function ToVector(m: Mat): (r: Result<Vector>)
    ensures r.Err? <==> m.rows != 1 && m.cols != 1
    ensures r.Err? ==> r.error == DimensionMismatch
    ensures r.Ok? && m.rows != 1 ==> |r.value| == m.rows
    ensures r.Ok? && m.rows != 1 ==> forall i :: 0 <= i < m.rows ==> r.value[i] == m.cells[i][0]
    ensures r.Ok? && m.rows == 1 ==> |r.value| == m.cols
    ensures r.Ok? && m.rows == 1 ==> forall j :: 0 <= j < m.cols ==> r.value[j] == m.cells[0][j]
  {
    if m.rows != 1 && m.cols != 1 then Err(DimensionMismatch)
    else if m.rows != 1 then Ok(seq(m.rows, i requires 0 <= i < m.rows => m.cells[i][0]))
    else Ok(seq(m.cols, j requires 0 <= j < m.cols => m.cells[0][j]))
  }

  /** Every n × 1 matrix reads out as its column, whatever n is. */
  lemma ToVectorOfColumn(m: Mat)
    requires m.cols == 1
    ensures ToVector(m).Ok?
    ensures |ToVector(m).value| == m.rows
    ensures forall i :: 0 <= i < m.rows ==> ToVector(m).value[i] == m.cells[i][0]
  {
  }

  /** Reading either view of v back gives v. */
  lemma ViewsRoundTrip(v: Vector)
    ensures ToVector(RowView(v)) == Ok(v)
    ensures ToVector(ColumnView(v)) == Ok(v)
  {
    assert ToVector(RowView(v)).value == v;
    assert ToVector(ColumnView(v)).value == v;
  }

  // ---------------------------------------------------------------- one-dimensional forms

  /** One-dimensional Add, performed on the 1 × n row views. */
  function AddVec(l: Vector, r: Vector): (o: Result<Vector>)
    ensures o.Err? <==> |l| != |r|
    ensures o.Err? ==> o.error == DimensionMismatch
    ensures o.Ok? ==> |o.value| == |l| && forall i :: 0 <= i < |l| ==> o.value[i] == l[i] + r[i]
  {
    var m :- Add(RowView(l), RowView(r));
    ToVector(m)
  }

  /** One-dimensional Subtract, `l − r`, performed on the 1 × n row views. */
  function SubVec(l: Vector, r: Vector): (o: Result<Vector>)
    ensures o.Err? <==> |l| != |r|
    ensures o.Err? ==> o.error == DimensionMismatch
    ensures o.Ok? ==> |o.value| == |l| && forall i :: 0 <= i < |l| ==> o.value[i] == l[i] - r[i]
  {
    var m :- Subtract(RowView(l), RowView(r));
    ToVector(m)
  }

  // ---------------------------------------------------------------- scaling

  /** Two-dimensional ScalarMultiplication: every element times s; never fails. */
  function Scale(s: real, a: Mat): (o: Mat)
    ensures SameShape(o, a)
    ensures forall i, j :: 0 <= i < a.rows && 0 <= j < a.cols ==> o.cells[i][j] == a.cells[i][j] * s
  {
    Matrix(a.rows, a.cols,
      seq(a.rows, i requires 0 <= i < a.rows =>
        seq(a.cols, j requires 0 <= j < a.cols => a.cells[i][j] * s)))
  }

  /** One-dimensional ScalarMultiplication, through the row view; never fails. */
  function ScaleVec(s: real, v: Vector): (o: Vector)
    ensures |o| == |v| && forall i :: 0 <= i < |v| ==> o[i] == v[i] * s
  {
    ToVector(Scale(s, RowView(v))).value
  }

  // ---------------------------------------------------------------- product

  /** Σ_{j < |a|} a[j]·b[j], accumulated from index 0 upwards. */
  function Dot(a: Vector, b: Vector): real
    requires |a| == |b|
    decreases |a|
  {
    if |a| == 0 then 0.0 else Dot(a[..|a| - 1], b[..|b| - 1]) + a[|a| - 1] * b[|b| - 1]
  }

  /** Column j of m as a vector. */
  function Column(m: Mat, j: nat): (c: Vector)
    requires j < m.cols
    ensures |c| == m.rows && forall i :: 0 <= i < m.rows ==> c[i] == m.cells[i][j]
  {
    seq(m.rows, i requires 0 <= i < m.rows => m.cells[i][j])
  }

  /** Multiply: `out[r][i] = Σ_j l[r][j]·rt[j][i]`; fails unless l has as many
      columns as rt has rows. */
  function Multiply(l: Mat, rt: Mat): (o: Result<Mat>)
    ensures o.Err? <==> l.cols != rt.rows
    ensures o.Err? ==> o.error == DimensionMismatch
    ensures o.Ok? ==> o.value.rows == l.rows && o.value.cols == rt.cols
    ensures o.Ok? ==> forall r, i :: 0 <= r < l.rows && 0 <= i < rt.cols ==>
                        o.value.cells[r][i] == Dot(l.cells[r], Column(rt, i))
  {
    if l.cols != rt.rows then Err(DimensionMismatch)
    else Ok(Matrix(l.rows, rt.cols,
      seq(l.rows, r requires 0 <= r < l.rows =>
        seq(rt.cols, i requires 0 <= i < rt.cols => Dot(l.cells[r], Column(rt, i))))))
  }

  lemma DotStep(a: Vector, b: Vector, j: nat)
    requires |a| == |b| && j < |a|
    ensures Dot(a[..j + 1], b[..j + 1]) == Dot(a[..j], b[..j]) + a[j] * b[j]
  {
    assert a[..j + 1][..j] == a[..j];
    assert b[..j + 1][..j] == b[..j];
  }

  /** The triple loop of the original Multiply, accumulating each element from
      zero; it computes exactly the product defined above. */
  method MultiplyLoop(l: Mat, rt: Mat) returns (o: Result<Mat>)
    ensures o.Err? <==> l.cols != rt.rows
    ensures o.Ok? ==> o.value.rows == l.rows && o.value.cols == rt.cols
    ensures o.Ok? ==> forall r, i :: 0 <= r < l.rows && 0 <= i < rt.cols ==>
                        o.value.cells[r][i] == Dot(l.cells[r], Column(rt, i))
  {
    if l.cols != rt.rows {
      return Err(DimensionMismatch);
    }
    var cells: seq<seq<real>> := [];
    var r := 0;
    while r < l.rows
      invariant 0 <= r <= l.rows
      invariant |cells| == r
      invariant forall k :: 0 <= k < r ==> |cells[k]| == rt.cols
      invariant forall k, i :: 0 <= k < r && 0 <= i < rt.cols ==> cells[k][i] == Dot(l.cells[k], Column(rt, i))
    {
      var row: seq<real> := [];
      var i := 0;
      while i < rt.cols
        invariant 0 <= i <= rt.cols
        invariant |row| == i
        invariant forall c :: 0 <= c < i ==> row[c] == Dot(l.cells[r], Column(rt, c))
      {
        var acc := 0.0;
        var j := 0;
        while j < rt.rows
          invariant 0 <= j <= rt.rows
          invariant acc == Dot(l.cells[r][..j], Column(rt, i)[..j])
        {
          DotStep(l.cells[r], Column(rt, i), j);
          acc := acc + l.cells[r][j] * rt.cells[j][i];
          j := j + 1;
        }
        assert l.cells[r][..j] == l.cells[r];
        assert Column(rt, i)[..j] == Column(rt, i);
        row := row + [acc];
        i := i + 1;
      }
      cells := cells + [row];
      r := r + 1;
    }
    o := Ok(Matrix(l.rows, rt.cols, cells));
  }

  // ---------------------------------------------------------------- transpose

  /** TransposeMatrix: the cols × rows matrix with `out[j][i] = a[i][j]`. */
  function Transpose(a: Mat): (t: Mat)
    ensures t.rows == a.cols && t.cols == a.rows
    ensures forall i, j :: 0 <= i < a.rows && 0 <= j < a.cols ==> t.cells[j][i] == a.cells[i][j]
  {
    Matrix(a.cols, a.rows,
      seq(a.cols, j requires 0 <= j < a.cols =>
        seq(a.rows, i requires 0 <= i < a.rows => a.cells[i][j])))
  }

  /** Transposing twice gives back the original matrix. */
  lemma TransposeTwice(a: Mat)
    ensures Transpose(Transpose(a)) == a
  {
    var t := Transpose(Transpose(a));
    assert t.cells == a.cells by {
      forall i | 0 <= i < a.rows
        ensures t.cells[i] == a.cells[i]
      {
        assert |t.cells[i]| == |a.cells[i]|;
      }
    }
  }

  lemma {:induction false} DotCommutes(a: Vector, b: Vector)
    requires |a| == |b|
    ensures Dot(a, b) == Dot(b, a)
    decreases |a|
  {
    if |a| > 0 {
      DotCommutes(a[..|a| - 1], b[..|b| - 1]);
    }
  }

  /** A row of zeros has dot product zero with anything. */
  lemma {:induction false} DotOfZeroRow(row: Vector, v: Vector)
    requires |row| == |v|
    requires forall j :: 0 <= j < |row| ==> row[j] == 0.0
    ensures Dot(row, v) == 0.0
    decreases |row|
  {
    if |row| > 0 {
      DotOfZeroRow(row[..|row| - 1], v[..|v| - 1]);
    }
  }

  /** A row that is zero except at position k picks out `row[k] * v[k]`. */
  lemma {:induction false} DotWithDiagonalRow(row: Vector, v: Vector, k: nat)
    requires |row| == |v| && k < |row|
    requires forall j :: 0 <= j < |row| && j != k ==> row[j] == 0.0
    ensures Dot(row, v) == row[k] * v[k]
    decreases |row|
  {
    var n := |row| - 1;
    if k == n {
      DotOfZeroRow(row[..n], v[..n]);
    } else {
      DotWithDiagonalRow(row[..n], v[..n], k);
    }
  }

  /** Scaling one operand scales the dot product. */
  lemma {:induction false} DotScaled(u: Vector, w: Vector, v: Vector, c: real)
    requires |u| == |w| == |v|
    requires forall m :: 0 <= m < |u| ==> u[m] == c * w[m]
    ensures Dot(u, v) == c * Dot(w, v)
    decreases |u|
  {
    if |u| > 0 {
      var n := |u| - 1;
      DotScaled(u[..n], w[..n], v[..n], c);
      assert Dot(u, v) == c * Dot(w[..n], v[..n]) + (c * w[n]) * v[n];
    }
  }

  /** (AB)ᵀ = BᵀAᵀ, and the two products fail together. */
  lemma TransposeOfProduct(a: Mat, b: Mat)
    ensures Multiply(a, b).Err? <==> Multiply(Transpose(b), Transpose(a)).Err?
    ensures Multiply(a, b).Ok? ==>
              Transpose(Multiply(a, b).value) == Multiply(Transpose(b), Transpose(a)).value
  {
    if a.cols == b.rows {
      var ab := Multiply(a, b).value;
      var bt := Transpose(b);
      var at := Transpose(a);
      var p := Multiply(bt, at).value;
      var t := Transpose(ab);
      assert t.cells == p.cells by {
        forall i | 0 <= i < b.cols
          ensures t.cells[i] == p.cells[i]
        {
          assert |t.cells[i]| == |p.cells[i]| == a.rows;
          forall k | 0 <= k < a.rows
            ensures t.cells[i][k] == p.cells[i][k]
          {
            assert bt.cells[i] == Column(b, i);
            assert Column(at, k) == a.cells[k];
            DotCommutes(a.cells[k], Column(b, i));
          }
        }
      }
    }
  }

  // ---------------------------------------------------------------- mutation

  /** The first step of MutateMatrix: an element outside [lower, upper] is moved
      onto the nearer bound. */
  function Clamp(x: real, lower: real, upper: real): (c: real)
    requires lower < upper
    ensures lower <= c <= upper
    ensures lower <= x <= upper ==> c == x
  {
    if lower > x then lower else if upper < x then upper else x
  }

  /** The last step of MutateMatrix: a sample that overshoots a bound is mirrored
      back across that bound; a sample inside the bounds is kept. */
  function Reflect(s: real, lower: real, upper: real): (r: real)
    requires lower < upper
    ensures lower <= s <= upper ==> r == s
    ensures s < lower ==> r > lower && r - lower == lower - s
    ensures s > upper ==> r < upper && upper - r == s - upper
  {
    if lower > s then (lower - s) + lower
    else if upper < s then (upper - s) + upper
    else s
  }

  /** A sample that overshoots by no more than the width of the interval lands
      inside it after reflection. */
  lemma ReflectStaysInsideForSmallOvershoot(s: real, lower: real, upper: real)
    requires lower < upper
    requires 2.0 * lower - upper <= s <= 2.0 * upper - lower
    ensures lower <= Reflect(s, lower, upper) <= upper
  {
  }

  /** A larger overshoot is mirrored past the opposite bound: reflection alone
      does not keep the element inside [lower, upper]. */
  lemma ReflectCanLeaveInterval()
    ensures Reflect(-4.0, -1.0, 1.0) == 2.0
  {
  }

  /** The new value of one element under MutateMatrix, given the sampler. */
  function MutatedElement(x: real, lower: real, upper: real, stdev: real, sample: Sampler, i: nat, j: nat): real
    requires lower < upper
  {
    Reflect(sample(i, j, Clamp(x, lower, upper), stdev), lower, upper)
  }

  /** Two-dimensional MutateMatrix: rejects `stdev ≤ 0` and then `lower ≥ upper`
      before touching any element; otherwise every element is clamped into
      [lower, upper], resampled around the clamped value and reflected. */
  function MutateMatrix(a: Mat, lower: real, upper: real, stdev: real, sample: Sampler): (o: Result<Mat>)
    ensures o.Err? <==> stdev <= 0.0 || lower >= upper
    ensures o.Err? ==> o.error == InvalidArgument
    ensures o.Ok? ==> SameShape(o.value, a)
    ensures o.Ok? ==> forall i, j :: 0 <= i < a.rows && 0 <= j < a.cols ==>
              o.value.cells[i][j] == Reflect(sample(i, j, Clamp(a.cells[i][j], lower, upper), stdev), lower, upper)
  {
    if stdev <= 0.0 then Err(InvalidArgument)
    else if lower >= upper then Err(InvalidArgument)
    else Ok(Matrix(a.rows, a.cols,
      seq(a.rows, i requires 0 <= i < a.rows =>
        seq(a.cols, j requires 0 <= j < a.cols => MutatedElement(a.cells[i][j], lower, upper, stdev, sample, i, j)))))
  }

  /** One-dimensional MutateMatrix: mutates the 1 × n row view (element i is
      drawn as element (0, i)) and writes the result back over the vector. */
  function MutateVector(v: Vector, lower: real, upper: real, stdev: real, sample: Sampler): (o: Result<Vector>)
    ensures o.Err? <==> stdev <= 0.0 || lower >= upper
    ensures o.Err? ==> o.error == InvalidArgument
    ensures o.Ok? ==> |o.value| == |v|
    ensures o.Ok? ==> forall i :: 0 <= i < |v| ==>
              o.value[i] == Reflect(sample(0, i, Clamp(v[i], lower, upper), stdev), lower, upper)
  {
    var m :- MutateMatrix(RowView(v), lower, upper, stdev, sample);
    ToVector(m)
  }
}
