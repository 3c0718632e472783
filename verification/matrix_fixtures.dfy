/** The fixed matrices of the original unit test of the matrix operations
    (Tests/UnitsTests.cs, MatrixMath), checked against the model. */
module MatrixFixtures {
  import opened Outcomes
  import opened Matrices

  /** A three-row matrix from its rows. */
  function M3(a: seq<real>, b: seq<real>, c: seq<real>): (m: Mat)
    requires |a| == |b| == |c|
    ensures m.rows == 3 && m.cols == |a| && m.cells == [a, b, c]
  {
    Matrix(3, |a|, [a, b, c])
  }

  /** A dot product of length three, written out. */
  lemma Dot3(a: Vector, b: Vector)
    requires |a| == 3 && |b| == 3
    ensures Dot(a, b) == a[0] * b[0] + a[1] * b[1] + a[2] * b[2]
  {
    assert a[..2][..1] == a[..1] && b[..2][..1] == b[..1];
    assert a[..1][..0] == [] && b[..1][..0] == [];
    assert Dot(a[..1], b[..1]) == a[0] * b[0];
    assert Dot(a[..2], b[..2]) == a[0] * b[0] + a[1] * b[1];
  }

  /** Every element of a product whose left factor has three columns, written out. */
  lemma ProductOfThreeColumns(a: Mat, b: Mat)
    requires a.cols == 3 && b.rows == 3
    ensures Multiply(a, b).Ok?
    ensures forall r, i :: 0 <= r < a.rows && 0 <= i < b.cols ==>
              Multiply(a, b).value.cells[r][i]
                == a.cells[r][0] * b.cells[0][i] + a.cells[r][1] * b.cells[1][i] + a.cells[r][2] * b.cells[2][i]
  {
    var p := Multiply(a, b).value;
    forall r, i | 0 <= r < a.rows && 0 <= i < b.cols
      ensures p.cells[r][i] == a.cells[r][0] * b.cells[0][i] + a.cells[r][1] * b.cells[1][i] + a.cells[r][2] * b.cells[2][i]
    {
      Dot3(a.cells[r], Column(b, i));
    }
  }

  /** The 3 × 3 by 3 × 3 product of the test. */
  lemma ThreeByThreeProduct()
    ensures Multiply(M3([5.0, 6.0, 1.0], [5.0, 7.0, 8.0], [9.0, 1.0, 3.0]),
                     M3([5.0, 6.0, 2.0], [8.0, 9.0, 1.0], [3.0, 5.0, 6.0]))
         == Ok(M3([76.0, 89.0, 22.0], [105.0, 133.0, 65.0], [62.0, 78.0, 37.0]))
  {
    var a := M3([5.0, 6.0, 1.0], [5.0, 7.0, 8.0], [9.0, 1.0, 3.0]);
    var b := M3([5.0, 6.0, 2.0], [8.0, 9.0, 1.0], [3.0, 5.0, 6.0]);
    var p := Multiply(a, b).value;
    ProductOfThreeColumns(a, b);
    assert p.cells[0] == [76.0, 89.0, 22.0];
    assert p.cells[1] == [105.0, 133.0, 65.0];
    assert p.cells[2] == [62.0, 78.0, 37.0];
    assert p.cells == [[76.0, 89.0, 22.0], [105.0, 133.0, 65.0], [62.0, 78.0, 37.0]];
  }

  /** The 3 × 3 by 3 × 2 product of the test. */
  lemma ThreeByTwoProduct()
    ensures Multiply(M3([5.0, 6.0, 1.0], [5.0, 7.0, 8.0], [9.0, 1.0, 3.0]),
                     M3([5.0, 6.0], [8.0, 9.0], [3.0, 5.0]))
         == Ok(M3([76.0, 89.0], [105.0, 133.0], [62.0, 78.0]))
  {
    var a := M3([5.0, 6.0, 1.0], [5.0, 7.0, 8.0], [9.0, 1.0, 3.0]);
    var b := M3([5.0, 6.0], [8.0, 9.0], [3.0, 5.0]);
    var p := Multiply(a, b).value;
    ProductOfThreeColumns(a, b);
    assert p.cells[0] == [76.0, 89.0];
    assert p.cells[1] == [105.0, 133.0];
    assert p.cells[2] == [62.0, 78.0];
    assert p.cells == [[76.0, 89.0], [105.0, 133.0], [62.0, 78.0]];
  }

  /** The 3 × 3 sum and difference of the test. */
  lemma ThreeByThreeSumAndDifference()
    ensures Add(M3([5.0, 6.0, 1.0], [5.0, 7.0, 8.0], [9.0, 1.0, 3.0]),
                M3([5.0, 6.0, 2.0], [8.0, 9.0, 1.0], [3.0, 5.0, 6.0]))
         == Ok(M3([10.0, 12.0, 3.0], [13.0, 16.0, 9.0], [12.0, 6.0, 9.0]))
    ensures Subtract(M3([5.0, 6.0, 1.0], [5.0, 7.0, 8.0], [9.0, 1.0, 3.0]),
                     M3([5.0, 6.0, 2.0], [8.0, 9.0, 1.0], [3.0, 5.0, 6.0]))
         == Ok(M3([0.0, 0.0, -1.0], [-3.0, -2.0, 7.0], [6.0, -4.0, -3.0]))
  {
    var a := M3([5.0, 6.0, 1.0], [5.0, 7.0, 8.0], [9.0, 1.0, 3.0]);
    var b := M3([5.0, 6.0, 2.0], [8.0, 9.0, 1.0], [3.0, 5.0, 6.0]);
    var s := Add(a, b).value;
    var d := Subtract(a, b).value;
    assert s.cells[0] == [10.0, 12.0, 3.0] && s.cells[1] == [13.0, 16.0, 9.0] && s.cells[2] == [12.0, 6.0, 9.0];
    assert d.cells[0] == [0.0, 0.0, -1.0] && d.cells[1] == [-3.0, -2.0, 7.0] && d.cells[2] == [6.0, -4.0, -3.0];
    assert s.cells == [[10.0, 12.0, 3.0], [13.0, 16.0, 9.0], [12.0, 6.0, 9.0]];
    assert d.cells == [[0.0, 0.0, -1.0], [-3.0, -2.0, 7.0], [6.0, -4.0, -3.0]];
  }
}
