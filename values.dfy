/**
 * The value abstraction the operation library is written against: element
 * types, layouts, scalars, and Values, which are typed handles to storage.
 * Vector and Matrix each wrap exactly one Value. The compound assignments
 * that the operators apply to a copy are defined once, on Value.
 */
module Values {
  import Elementwise

  /** The closed set of element type tags. */
  datatype ValueType = Void | Boolean | Char8 | Byte | Int16 | Int32 | Int64 | Float | Double

  /** The error kinds raised by the operation library. */
  datatype ErrorKind =
    | SizeMismatch           // operand sizes differ where they must agree
    | TypeMismatch           // operand element types differ
    | InvalidArgument        // a layout has the wrong number of dimensions
    | NotImplemented         // an operation the library declares but does not provide
    | InternalInconsistency  // no execution context accepted the operation

  datatype Result<T> = Ok(value: T) | Err(error: ErrorKind)

  datatype Option<T> = None | Some(value: T)

  function Product(xs: seq<nat>): nat
  {
    if xs == [] then 1 else xs[0] * Product(xs[1..])
  }

  lemma ProductOfPair(a: nat, b: nat)
    ensures Product([a, b]) == a * b
  {
    assert [a, b][1..] == [b] && [b][1..] == [];
    assert Product([b]) == b;
  }

  /** Shape of a value: an extent and a cumulative increment (stride) per dimension. */
  datatype Layout = Layout(extents: seq<nat>, increments: seq<nat>)
  {
    predicate Valid()
    {
      |extents| == |increments|
    }

    function NumDimensions(): nat
    {
      |extents|
    }

    function NumElements(): nat
    {
      Product(extents)
    }

    function GetCumulativeIncrement(dimension: nat): nat
      requires dimension < |increments|
    {
      increments[dimension]
    }
  }

  /** The layout of a scalar: no dimensions. */
  const ScalarLayout: Layout := Layout([], [])

  const TwoToThe32: int := 0x1_0000_0000

  /** `static_cast<int>` of a non-negative size: the value modulo 2^32, read as
      a two's-complement 32-bit integer. */
  function Int32Cast(n: nat): (r: int)
    ensures -0x8000_0000 <= r < 0x8000_0000
    ensures (n - r) % TwoToThe32 == 0
    ensures n < 0x8000_0000 ==> r == n
  {
    var m := n % TwoToThe32;
    if m < 0x8000_0000 then m else m - TwoToThe32
  }

  /** A scalar operand: an element type and an element, modelled as an integer. */
  datatype Scalar = Scalar(vtype: ValueType, value: int)

  /**
   * A typed handle to storage. `data` holds the elements in row-major
   * order of `layout`'s extents; two Values alias when they share `data`.
   */
  class Value {
    const vtype: ValueType
    const layout: Layout
    const data: array<int>

    ghost predicate Valid()
    {
      layout.Valid() && data.Length == layout.NumElements()
    }

    constructor (vtype: ValueType, layout: Layout, contents: seq<int>)
      requires layout.Valid() && |contents| == layout.NumElements()
      ensures Valid() && fresh(data)
      ensures this.vtype == vtype && this.layout == layout && data[..] == contents
    {
      this.vtype := vtype;
      this.layout := layout;
      data := new int[|contents|](i requires 0 <= i < |contents| => contents[i]);
    }

    /** A deep copy in freshly allocated storage. */
    method Copy() returns (c: Value)
      requires Valid()
      ensures c.Valid() && fresh(c) && fresh(c.data)
      ensures c.vtype == vtype && c.layout == layout && c.data[..] == data[..]
    {
      c := new Value(vtype, layout, data[..]);
    }

    /** `+=` with a scalar of the same element type. */
    method AddAssign(s: Scalar)
      requires s.vtype == vtype
      modifies data
      ensures data[..] == Elementwise.AddScalar(old(data[..]), s.value)
    {
      forall i | 0 <= i < data.Length {
        data[i] := data[i] + s.value;
      }
    }

    /** `-=` with a scalar of the same element type. */
    method SubtractAssign(s: Scalar)
      requires s.vtype == vtype
      modifies data
      ensures data[..] == Elementwise.SubtractScalar(old(data[..]), s.value)
    {
      forall i | 0 <= i < data.Length {
        data[i] := data[i] - s.value;
      }
    }

    /** `*=` with a scalar of the same element type. */
    method MultiplyAssign(s: Scalar)
      requires s.vtype == vtype
      modifies data
      ensures data[..] == Elementwise.MultiplyScalar(old(data[..]), s.value)
    {
      forall i | 0 <= i < data.Length {
        data[i] := data[i] * s.value;
      }
    }

    /** `/=` with a nonzero scalar of the same element type (truncating division). */
    method DivideAssign(s: Scalar)
      requires s.vtype == vtype && s.value != 0
      modifies data
      ensures data[..] == Elementwise.DivideScalar(old(data[..]), s.value)
    {
      forall i | 0 <= i < data.Length {
        data[i] := Elementwise.Quotient(data[i], s.value);
      }
    }

    /** `+=` with an equally sized operand of the same element type (which may alias this one). */
    method AddAssignElementwise(other: Value)
      requires other.vtype == vtype && other.data.Length == data.Length
      modifies data
      ensures data[..] == Elementwise.AddElementwise(old(data[..]), old(other.data[..]))
    {
      forall i | 0 <= i < data.Length {
        data[i] := data[i] + other.data[i];
      }
    }

    /** `-=` with an equally sized operand of the same element type (which may alias this one). */
    method SubtractAssignElementwise(other: Value)
      requires other.vtype == vtype && other.data.Length == data.Length
      modifies data
      ensures data[..] == Elementwise.SubtractElementwise(old(data[..]), old(other.data[..]))
    {
      forall i | 0 <= i < data.Length {
        data[i] := data[i] - other.data[i];
      }
    }
  }

  /** A rank-1 wrapper over a Value. */
  datatype Vector = Vector(value: Value)
  {
    ghost predicate Valid()
    {
      value.Valid()
    }

    function Type(): ValueType
    {
      value.vtype
    }

    function GetLayout(): Layout
    {
      value.layout
    }

    function Size(): nat
    {
      value.layout.NumElements()
    }

    function Elements(): seq<int>
      reads value.data
    {
      value.data[..]
    }

    method Copy() returns (c: Vector)
      requires Valid()
      ensures c.Valid() && fresh(c.value) && fresh(c.value.data)
      ensures c.Type() == Type() && c.GetLayout() == GetLayout() && c.Elements() == Elements()
    {
      var copied := value.Copy();
      c := Vector(copied);
    }
  }

  /** A rank-2 wrapper over a Value; element (row, column) is stored at row * Columns() + column. */
  datatype Matrix = Matrix(value: Value)
  {
    ghost predicate Valid()
    {
      value.Valid()
    }

    function Type(): ValueType
    {
      value.vtype
    }

    function GetLayout(): Layout
    {
      value.layout
    }

    predicate IsTwoDimensional()
    {
      value.layout.NumDimensions() == 2
    }

    function Rows(): nat
      requires IsTwoDimensional()
    {
      value.layout.extents[0]
    }

    function Columns(): nat
      requires IsTwoDimensional()
    {
      value.layout.extents[1]
    }

    function Elements(): seq<int>
      reads value.data
    {
      value.data[..]
    }

    method Copy() returns (c: Matrix)
      requires Valid()
      ensures c.Valid() && fresh(c.value) && fresh(c.value.data)
      ensures c.Type() == Type() && c.GetLayout() == GetLayout() && c.Elements() == Elements()
    {
      var copied := value.Copy();
      c := Matrix(copied);
    }
  }
}
