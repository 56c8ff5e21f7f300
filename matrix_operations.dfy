/**
 * Matrix operations of the value library: the two-dimensional For, Sum,
 * the declared-but-unimplemented GEMM and GEMV, and the elementwise
 * operators, each built on a copy so that no operand changes.
 */
module MatrixOperations {
  import opened Values
  import opened ExecutionContext
  import Elementwise

  /**
   * `For(m, fn)`: the (row, column) arguments `fn` is called with, in call
   * order. Only a two-dimensional layout may be looped over. The k-th call
   * addresses the k-th element of row-major storage, so every element is
   * visited exactly once.
   */
  function For(ctx: Context, m: Matrix): (calls: Result<seq<(int, int)>>)
    requires ctx.RowMajorOn(m.GetLayout())
    ensures !m.IsTwoDimensional() ==> calls == Err(InvalidArgument)
    ensures m.IsTwoDimensional() ==>
      && calls.Ok?
      && |calls.value| == m.Rows() * m.Columns()
      && forall k :: 0 <= k < |calls.value| ==>
           && 0 <= calls.value[k].0 < m.Rows()
           && 0 <= calls.value[k].1 < m.Columns()
           && calls.value[k].0 * m.Columns() + calls.value[k].1 == k
  {
    var layout := m.GetLayout();
    if layout.NumDimensions() != 2 then Err(InvalidArgument)
    else
      var coordinates := ctx.iterate(layout);
      assert layout.extents == [m.Rows(), m.Columns()];
      RowMajorMatrix(m.Rows(), m.Columns());
      Ok(seq(|coordinates|, k requires 0 <= k < |coordinates| => (coordinates[k][0], coordinates[k][1])))
  }

  /** `Sum(m)`: a freshly allocated zero scalar of `m`'s element type with every element added. */
  method Sum(ctx: Context, matrix: Matrix) returns (r: Result<Scalar>)
    requires matrix.Valid() && ctx.RowMajorOn(matrix.GetLayout())
    ensures !matrix.IsTwoDimensional() ==> r == Err(InvalidArgument)
    ensures matrix.IsTwoDimensional() ==>
      r == Ok(Scalar(matrix.Type(), Elementwise.Sum(matrix.Elements())))
  {
    var result := 0;  // Allocate(matrix.Type(), ScalarLayout) is zero-initialised
    var calls := For(ctx, matrix);
    if calls.Err? {
      return Err(calls.error);
    }
    var columns := matrix.Columns();
    var extents := matrix.GetLayout().extents;
    assert extents == [matrix.Rows(), columns];
    ProductOfPair(matrix.Rows(), columns);
    assert matrix.value.data.Length == matrix.Rows() * columns;
    ghost var elements := matrix.Elements();
    for k := 0 to |calls.value|
      invariant result == Elementwise.Sum(elements[..k])
    {
      var (row, column) := calls.value[k];
      assert elements[..k + 1][..k] == elements[..k];
      result := result + matrix.value.data[row * columns + column];
    }
    assert elements[..|calls.value|] == elements;
    return Ok(Scalar(matrix.Type(), result));
  }

  /** General matrix-matrix multiply: declared, never implemented. */
  function GEMM(m1: Matrix, m2: Matrix): (r: Result<Matrix>)
    ensures r == Err(NotImplemented)
  {
    Err(NotImplemented)
  }

  /** General matrix-vector multiply: declared, never implemented. */
  function GEMV(m: Matrix, v: Vector): (r: Result<Vector>)
    ensures r == Err(NotImplemented)
  {
    Err(NotImplemented)
  }

  /** `m1 + m2`: `+=` applied to a copy of `m1`. */
  method MatrixPlusMatrix(m1: Matrix, m2: Matrix) returns (r: Matrix)
    requires m1.Valid() && m2.Valid()
    requires m1.Type() == m2.Type() && m1.GetLayout().extents == m2.GetLayout().extents
    ensures r.Valid() && fresh(r.value) && fresh(r.value.data)
    ensures r.Type() == m1.Type() && r.GetLayout() == m1.GetLayout()
    ensures r.Elements() == Elementwise.AddElementwise(m1.Elements(), m2.Elements())
    ensures m1.Elements() == old(m1.Elements()) && m2.Elements() == old(m2.Elements())
  {
    var copy := m1.Copy();
    copy.value.AddAssignElementwise(m2.value);
    r := copy;
  }

  /** `m + s`: `+=` applied to a copy of `m`. */
  method MatrixPlusScalar(m: Matrix, s: Scalar) returns (r: Matrix)
    requires m.Valid() && s.vtype == m.Type()
    ensures r.Valid() && fresh(r.value) && fresh(r.value.data)
    ensures r.Type() == m.Type() && r.GetLayout() == m.GetLayout()
    ensures r.Elements() == Elementwise.AddScalar(m.Elements(), s.value)
    ensures m.Elements() == old(m.Elements())
  {
    var copy := m.Copy();
    copy.value.AddAssign(s);
    r := copy;
  }

  /** `m1 - m2`: `-=` applied to a copy of `m1`. */
  method MatrixMinusMatrix(m1: Matrix, m2: Matrix) returns (r: Matrix)
    requires m1.Valid() && m2.Valid()
    requires m1.Type() == m2.Type() && m1.GetLayout().extents == m2.GetLayout().extents
    ensures r.Valid() && fresh(r.value) && fresh(r.value.data)
    ensures r.Type() == m1.Type() && r.GetLayout() == m1.GetLayout()
    ensures r.Elements() == Elementwise.SubtractElementwise(m1.Elements(), m2.Elements())
    ensures m1.Elements() == old(m1.Elements()) && m2.Elements() == old(m2.Elements())
  {
    var copy := m1.Copy();
    copy.value.SubtractAssignElementwise(m2.value);
    r := copy;
  }

  /** `m - s`: `-=` applied to a copy of `m`. */
  method MatrixMinusScalar(m: Matrix, s: Scalar) returns (r: Matrix)
    requires m.Valid() && s.vtype == m.Type()
    ensures r.Valid() && fresh(r.value) && fresh(r.value.data)
    ensures r.Type() == m.Type() && r.GetLayout() == m.GetLayout()
    ensures r.Elements() == Elementwise.SubtractScalar(m.Elements(), s.value)
    ensures m.Elements() == old(m.Elements())
  {
    var copy := m.Copy();
    copy.value.SubtractAssign(s);
    r := copy;
  }

  /** `m * s`: `*=` applied to a copy of `m`. */
  method MatrixTimesScalar(m: Matrix, s: Scalar) returns (r: Matrix)
    requires m.Valid() && s.vtype == m.Type()
    ensures r.Valid() && fresh(r.value) && fresh(r.value.data)
    ensures r.Type() == m.Type() && r.GetLayout() == m.GetLayout()
    ensures r.Elements() == Elementwise.MultiplyScalar(m.Elements(), s.value)
    ensures m.Elements() == old(m.Elements())
  {
    var copy := m.Copy();
    copy.value.MultiplyAssign(s);
    r := copy;
  }

  /** `m / s`: `/=` applied to a copy of `m`. */
  method MatrixDividedByScalar(m: Matrix, s: Scalar) returns (r: Matrix)
    requires m.Valid() && s.vtype == m.Type() && s.value != 0
    ensures r.Valid() && fresh(r.value) && fresh(r.value.data)
    ensures r.Type() == m.Type() && r.GetLayout() == m.GetLayout()
    ensures r.Elements() == Elementwise.DivideScalar(m.Elements(), s.value)
    ensures m.Elements() == old(m.Elements())
  {
    var copy := m.Copy();
    copy.value.DivideAssign(s);
    r := copy;
  }
}
