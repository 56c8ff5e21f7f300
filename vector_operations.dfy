/**
 * Vector operations of the value library: the one-dimensional For, the
 * Accumulate fold, Dot with its accelerated-routine dispatch, and the
 * elementwise operators, each built on a copy so that no operand changes.
 */
module VectorOperations {
  import opened Values
  import opened ExecutionContext
  import Elementwise

  /**
   * `For(v, fn)`: the index arguments `fn` is called with, in call order.
   * Only a one-dimensional layout may be looped over.
   */
  function For(ctx: Context, v: Vector): (indices: Result<seq<int>>)
    requires ctx.RowMajorOn(v.GetLayout())
    ensures v.GetLayout().NumDimensions() != 1 ==> indices == Err(InvalidArgument)
    ensures v.GetLayout().NumDimensions() == 1 ==>
      && indices.Ok?
      && |indices.value| == v.Size()
      && forall k :: 0 <= k < |indices.value| ==> indices.value[k] == k
  {
    var layout := v.GetLayout();
    if layout.NumDimensions() != 1 then Err(InvalidArgument)
    else
      var coordinates := ctx.iterate(layout);
      var n := layout.extents[0];
      assert layout.extents == [n];
      assert Product(layout.extents) == n * Product([]);
      RowMajorVector(n);
      Ok(seq(|coordinates|, k requires 0 <= k < |coordinates| => coordinates[k][0]))
  }

  /** `Accumulate(input, initialValue)`: `initialValue` with every element added, in index order. */
  method Accumulate(ctx: Context, input: Vector, initialValue: Scalar) returns (r: Result<Scalar>)
    requires input.Valid() && ctx.RowMajorOn(input.GetLayout())
    requires initialValue.vtype == input.Type()
    ensures input.GetLayout().NumDimensions() != 1 ==> r == Err(InvalidArgument)
    ensures input.GetLayout().NumDimensions() == 1 ==>
      r == Ok(Scalar(initialValue.vtype, initialValue.value + Elementwise.Sum(input.Elements())))
  {
    var indices := For(ctx, input);
    if indices.Err? {
      return Err(indices.error);
    }
    var result := initialValue.value;
    for k := 0 to |indices.value|
      invariant result == initialValue.value + Elementwise.Sum(input.Elements()[..k])
    {
      var index := indices.value[k];
      assert input.Elements()[..k + 1][..k] == input.Elements()[..k];
      result := result + input.value.data[index];
    }
    assert input.Elements()[..|indices.value|] == input.Elements();
    return Ok(Scalar(initialValue.vtype, result));
  }

  /**
   * The call of an external dot-product routine: arguments (n, x, incx, y,
   * incy), where n is the size of `v1` and each increment is the stride of
   * that vector's dimension 0, all three passed as 32-bit integers.
   */
  function BlasDot(name: string, t: ValueType, v1: Vector, v2: Vector): (call: Invocation)
    requires v1.GetLayout().Valid() && v2.GetLayout().Valid()
    requires v1.GetLayout().NumDimensions() >= 1 && v2.GetLayout().NumDimensions() >= 1
    reads v1.value.data, v2.value.data
    ensures call.callee.name == name && call.callee.decoration == DefaultDecoration
    ensures call.callee.result == Parameter(t, 0, ScalarLayout)
    ensures call.callee.parameters == [
      Parameter(Int32, 0, ScalarLayout), Parameter(t, 1, v1.GetLayout()),
      Parameter(Int32, 0, ScalarLayout), Parameter(t, 1, v2.GetLayout()),
      Parameter(Int32, 0, ScalarLayout)]
    ensures call.arguments == [
      Number(Int32Cast(v1.Size())),
      Buffer(v1.Elements()),
      Number(Int32Cast(v1.GetLayout().increments[0])),
      Buffer(v2.Elements()),
      Number(Int32Cast(v2.GetLayout().increments[0]))]
    ensures v1.Size() < 0x8000_0000 ==> call.arguments[0] == Number(v1.Size())
  {
    var int32 := Parameter(Int32, 0, ScalarLayout);
    Invocation(
      FunctionDeclaration(
        name,
        Parameter(t, 0, ScalarLayout),
        [int32, Parameter(t, 1, v1.GetLayout()), int32, Parameter(t, 1, v2.GetLayout()), int32],
        DefaultDecoration),
      [ Number(Int32Cast(v1.Size())),
        Buffer(v1.Elements()),
        Number(Int32Cast(v1.GetLayout().GetCumulativeIncrement(0))),
        Buffer(v2.Elements()),
        Number(Int32Cast(v2.GetLayout().GetCumulativeIncrement(0))) ])
  }

  /**
   * The accelerated path: the interpreting context's attempt first; if it
   * declines, the emitting context's call of the undecorated symbol; if that
   * declines too, no context accepted the operation.
   */
  function Accelerated(ctx: Context, call: Invocation, t: ValueType): (r: Result<Scalar>)
    ensures ctx.interpret(call).Some? ==> r == Ok(Scalar(t, ctx.interpret(call).value))
    ensures ctx.interpret(call).None? ==>
      var undecorated := call.(callee := call.callee.(decoration := Undecorated));
      && (ctx.emit(undecorated).Some? ==> r == Ok(Scalar(t, ctx.emit(undecorated).value)))
      && (ctx.emit(undecorated).None? ==> r == Err(InternalInconsistency))
    ensures r.Ok? ==> r.value.vtype == t
    ensures r.Err? ==> r.error == InternalInconsistency
  {
    match ctx.interpret(call)
    case Some(x) => Ok(Scalar(t, x))
    case None =>
      match ctx.emit(call.(callee := call.callee.(decoration := Undecorated)))
      case Some(y) => Ok(Scalar(t, y))
      case None => Err(InternalInconsistency)
  }

  /**
   * `Dot(v1, v2)`: sizes are checked before element types; Float and
   * Double go to `cblas_sdot` and `cblas_ddot`; every other element type
   * takes the generic multiply-accumulate loop.
   */
  method Dot(ctx: Context, v1: Vector, v2: Vector) returns (r: Result<Scalar>)
    requires v1.Valid() && v2.Valid()
    requires v1.GetLayout().NumDimensions() >= 1 && v2.GetLayout().NumDimensions() >= 1
    requires ctx.RowMajorOn(v1.GetLayout())
    ensures v1.Size() != v2.Size() ==> r == Err(SizeMismatch)
    ensures v1.Size() == v2.Size() && v1.Type() != v2.Type() ==> r == Err(TypeMismatch)
    ensures v1.Size() == v2.Size() && v1.Type() == v2.Type() == Float ==>
      r == Accelerated(ctx, BlasDot("cblas_sdot", Float, v1, v2), Float)
    ensures v1.Size() == v2.Size() && v1.Type() == v2.Type() == Double ==>
      r == Accelerated(ctx, BlasDot("cblas_ddot", Double, v1, v2), Double)
    ensures v1.Size() == v2.Size() && v1.Type() == v2.Type() && v1.Type() !in {Float, Double} ==>
      r == if v1.GetLayout().NumDimensions() != 1 then Err(InvalidArgument)
           else Ok(Scalar(v1.Type(), Elementwise.DotProduct(v1.Elements(), v2.Elements())))
  {
    if v1.Size() != v2.Size() {
      return Err(SizeMismatch);
    }
    if v1.Type() != v2.Type() {
      return Err(TypeMismatch);
    }
    if v1.Type() == Float {
      return Accelerated(ctx, BlasDot("cblas_sdot", Float, v1, v2), Float);
    } else if v1.Type() == Double {
      return Accelerated(ctx, BlasDot("cblas_ddot", Double, v1, v2), Double);
    }
    var indices := For(ctx, v1);
    if indices.Err? {
      return Err(indices.error);
    }
    var xs, ys := v1.Elements(), v2.Elements();
    var result := 0;  // the default-constructed scalar
    for k := 0 to |indices.value|
      invariant result == Elementwise.DotProduct(xs[..k], ys[..k])
    {
      var index := indices.value[k];
      assert xs[..k + 1][..k] == xs[..k] && ys[..k + 1][..k] == ys[..k];
      result := result + v1.value.data[index] * v2.value.data[index];
    }
    assert xs[..|indices.value|] == xs && ys[..|indices.value|] == ys;
    return Ok(Scalar(v1.Type(), result));
  }

  /** `s + v`, which is `v + s`. */
  method ScalarPlusVector(s: Scalar, v: Vector) returns (r: Vector)
    requires v.Valid() && s.vtype == v.Type()
    ensures r.Valid() && fresh(r.value) && fresh(r.value.data)
    ensures r.Type() == v.Type() && r.GetLayout() == v.GetLayout()
    ensures r.Elements() == Elementwise.AddScalar(v.Elements(), s.value)
    ensures v.Elements() == old(v.Elements())
  {
    r := VectorPlusScalar(v, s);
  }

  /** `v + s`: `+=` applied to a copy of `v`. */
  method VectorPlusScalar(v: Vector, s: Scalar) returns (r: Vector)
    requires v.Valid() && s.vtype == v.Type()
    ensures r.Valid() && fresh(r.value) && fresh(r.value.data)
    ensures r.Type() == v.Type() && r.GetLayout() == v.GetLayout()
    ensures r.Elements() == Elementwise.AddScalar(v.Elements(), s.value)
    ensures v.Elements() == old(v.Elements())
  {
    var copy := v.Copy();
    copy.value.AddAssign(s);
    r := copy;
  }

  /** `v1 + v2`: `+=` applied to a copy of `v1`. */
  method VectorPlusVector(v1: Vector, v2: Vector) returns (r: Vector)
    requires v1.Valid() && v2.Valid()
    requires v1.Type() == v2.Type() && v1.Size() == v2.Size()
    ensures r.Valid() && fresh(r.value) && fresh(r.value.data)
    ensures r.Type() == v1.Type() && r.GetLayout() == v1.GetLayout()
    ensures r.Elements() == Elementwise.AddElementwise(v1.Elements(), v2.Elements())
    ensures v1.Elements() == old(v1.Elements()) && v2.Elements() == old(v2.Elements())
  {
    var copy := v1.Copy();
    copy.value.AddAssignElementwise(v2.value);
    r := copy;
  }

  /** `s - v`: each element of a copy of `v` is overwritten with `s` minus it. */
  method ScalarMinusVector(ctx: Context, s: Scalar, v: Vector) returns (r: Result<Vector>)
    requires v.Valid() && ctx.RowMajorOn(v.GetLayout())
    requires v.GetLayout().NumDimensions() == 1 ==> s.vtype == v.Type()
    ensures v.GetLayout().NumDimensions() != 1 ==> r == Err(InvalidArgument)
    ensures v.GetLayout().NumDimensions() == 1 ==>
      && r.Ok? && r.value.Valid() && fresh(r.value.value) && fresh(r.value.value.data)
      && r.value.Type() == v.Type() && r.value.GetLayout() == v.GetLayout()
      && r.value.Elements() == Elementwise.ScalarSubtract(s.value, v.Elements())
    ensures v.Elements() == old(v.Elements())
  {
    var copy := v.Copy();
    var indices := For(ctx, copy);
    if indices.Err? {
      return Err(indices.error);
    }
    ghost var original := copy.Elements();
    for k := 0 to |indices.value|
      invariant forall i :: 0 <= i < k ==> copy.value.data[i] == s.value - original[i]
      invariant forall i :: k <= i < copy.value.data.Length ==> copy.value.data[i] == original[i]
    {
      var index := indices.value[k];
      copy.value.data[index] := s.value - copy.value.data[index];
    }
    return Ok(copy);
  }

  /** `v - s`: `-=` applied to a copy of `v`. */
  method VectorMinusScalar(v: Vector, s: Scalar) returns (r: Vector)
    requires v.Valid() && s.vtype == v.Type()
    ensures r.Valid() && fresh(r.value) && fresh(r.value.data)
    ensures r.Type() == v.Type() && r.GetLayout() == v.GetLayout()
    ensures r.Elements() == Elementwise.SubtractScalar(v.Elements(), s.value)
    ensures v.Elements() == old(v.Elements())
  {
    var copy := v.Copy();
    copy.value.SubtractAssign(s);
    r := copy;
  }

  /** `v1 - v2`: `-=` applied to a copy of `v1`. */
  method VectorMinusVector(v1: Vector, v2: Vector) returns (r: Vector)
    requires v1.Valid() && v2.Valid()
    requires v1.Type() == v2.Type() && v1.Size() == v2.Size()
    ensures r.Valid() && fresh(r.value) && fresh(r.value.data)
    ensures r.Type() == v1.Type() && r.GetLayout() == v1.GetLayout()
    ensures r.Elements() == Elementwise.SubtractElementwise(v1.Elements(), v2.Elements())
    ensures v1.Elements() == old(v1.Elements()) && v2.Elements() == old(v2.Elements())
  {
    var copy := v1.Copy();
    copy.value.SubtractAssignElementwise(v2.value);
    r := copy;
  }

  /** `s * v`, which is `v * s`. */
  method ScalarTimesVector(s: Scalar, v: Vector) returns (r: Vector)
    requires v.Valid() && s.vtype == v.Type()
    ensures r.Valid() && fresh(r.value) && fresh(r.value.data)
    ensures r.Type() == v.Type() && r.GetLayout() == v.GetLayout()
    ensures r.Elements() == Elementwise.MultiplyScalar(v.Elements(), s.value)
    ensures v.Elements() == old(v.Elements())
  {
    r := VectorTimesScalar(v, s);
  }

  /** `v * s`: `*=` applied to a copy of `v`. */
  method VectorTimesScalar(v: Vector, s: Scalar) returns (r: Vector)
    requires v.Valid() && s.vtype == v.Type()
    ensures r.Valid() && fresh(r.value) && fresh(r.value.data)
    ensures r.Type() == v.Type() && r.GetLayout() == v.GetLayout()
    ensures r.Elements() == Elementwise.MultiplyScalar(v.Elements(), s.value)
    ensures v.Elements() == old(v.Elements())
  {
    var copy := v.Copy();
    copy.value.MultiplyAssign(s);
    r := copy;
  }

  /** `s / v`: each element of a copy of `v` is overwritten with `s` divided by it. */
  method ScalarDividedByVector(ctx: Context, s: Scalar, v: Vector) returns (r: Result<Vector>)
    requires v.Valid() && ctx.RowMajorOn(v.GetLayout())
    requires v.GetLayout().NumDimensions() == 1 ==> s.vtype == v.Type()
    requires v.GetLayout().NumDimensions() == 1 ==> Elementwise.NoZero(v.Elements())
    ensures v.GetLayout().NumDimensions() != 1 ==> r == Err(InvalidArgument)
    ensures v.GetLayout().NumDimensions() == 1 ==>
      && r.Ok? && r.value.Valid() && fresh(r.value.value) && fresh(r.value.value.data)
      && r.value.Type() == v.Type() && r.value.GetLayout() == v.GetLayout()
      && r.value.Elements() == Elementwise.ScalarDivide(s.value, v.Elements())
    ensures v.Elements() == old(v.Elements())
  {
    var copy := v.Copy();
    var indices := For(ctx, copy);
    if indices.Err? {
      return Err(indices.error);
    }
    ghost var original := copy.Elements();
    for k := 0 to |indices.value|
      invariant forall i :: 0 <= i < k ==> copy.value.data[i] == Elementwise.Quotient(s.value, original[i])
      invariant forall i :: k <= i < copy.value.data.Length ==> copy.value.data[i] == original[i]
    {
      var index := indices.value[k];
      copy.value.data[index] := Elementwise.Quotient(s.value, copy.value.data[index]);
    }
    return Ok(copy);
  }

  /** `v / s`: `/=` applied to a copy of `v`. */
  method VectorDividedByScalar(v: Vector, s: Scalar) returns (r: Vector)
    requires v.Valid() && s.vtype == v.Type() && s.value != 0
    ensures r.Valid() && fresh(r.value) && fresh(r.value.data)
    ensures r.Type() == v.Type() && r.GetLayout() == v.GetLayout()
    ensures r.Elements() == Elementwise.DivideScalar(v.Elements(), s.value)
    ensures v.Elements() == old(v.Elements())
  {
    var copy := v.Copy();
    copy.value.DivideAssign(s);
    r := copy;
  }
}
