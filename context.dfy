/**
 * The execution context, received by every operation as an explicit
 * parameter instead of being looked up as process-wide state. A context
 * enumerates the coordinates of a layout (its For primitive) and offers two
 * opaque attempts at invoking a named external routine: one by the
 * interpreting context, one by the emitting context. Each attempt either
 * yields a result or declines.
 */
module ExecutionContext {
  import opened Values

  /** Every coordinate tuple of `extents`, exactly once, in row-major order. */
  function RowMajor(extents: seq<nat>): seq<seq<int>>
    decreases |extents|
  {
    if extents == [] then [[]] else Rows(extents[0], RowMajor(extents[1..]))
  }

  /** `[i] + t` for each i < n (outer) and each tuple t of `inner` (inner). */
  function Rows(n: nat, inner: seq<seq<int>>): seq<seq<int>>
  {
    if n == 0 then [] else Rows(n - 1, inner) + Prepend(n - 1, inner)
  }

  function Prepend(i: int, inner: seq<seq<int>>): seq<seq<int>>
  {
    seq(|inner|, j requires 0 <= j < |inner| => [i] + inner[j])
  }

  lemma {:induction false} RowsOfPoints(n: nat)
    ensures |Rows(n, [[]])| == n
    ensures forall k :: 0 <= k < n ==> Rows(n, [[]])[k] == [k]
  {
    if n > 0 {
      RowsOfPoints(n - 1);
      var last := Prepend(n - 1, [[]]);
      assert |last| == 1 && last[0] == [n - 1] + [];
      assert [n - 1] + [] == [n - 1];
      assert last == [[n - 1]];
    }
  }

  /** A one-dimensional layout of extent n is visited at [0], [1], ..., [n-1]. */
  lemma RowMajorVector(n: nat)
    ensures |RowMajor([n])| == n
    ensures forall k :: 0 <= k < n ==> RowMajor([n])[k] == [k]
  {
    assert [n][1..] == [];
    assert RowMajor([n]) == Rows(n, [[]]);
    RowsOfPoints(n);
  }

  /** A rows-by-columns layout is visited one row after another: the k-th
      coordinate pair (row, column) lies within the extents and addresses
      the k-th element in row-major storage. */
  lemma {:induction false} RowMajorMatrix(rows: nat, columns: nat)
    ensures |RowMajor([rows, columns])| == rows * columns
    ensures forall k :: 0 <= k < rows * columns ==>
      var c := RowMajor([rows, columns])[k];
      |c| == 2 && 0 <= c[0] < rows && 0 <= c[1] < columns && c[0] * columns + c[1] == k
  {
    assert [rows, columns][1..] == [columns];
    RowMajorVector(columns);
    var inner := RowMajor([columns]);
    assert RowMajor([rows, columns]) == Rows(rows, inner);
    if rows > 0 {
      RowMajorMatrix(rows - 1, columns);
      assert [rows - 1, columns][1..] == [columns];
      var before := Rows(rows - 1, inner);
      var all := Rows(rows, inner);
      assert all == before + Prepend(rows - 1, inner);
      assert |before| == (rows - 1) * columns;
      assert (rows - 1) * columns + columns == rows * columns;
      forall k | 0 <= k < rows * columns
        ensures |all[k]| == 2 && 0 <= all[k][0] < rows && 0 <= all[k][1] < columns
        ensures all[k][0] * columns + all[k][1] == k
      {
        if k >= |before| {
          var j := k - |before|;
          assert all[k] == [rows - 1] + inner[j] == [rows - 1, j];
        }
      }
    }
  }

  /** A parameter or return type of a declared function: element type,
      pointer level (0 for a scalar, 1 for a pointer to elements) and layout. */
  datatype Parameter = Parameter(vtype: ValueType, pointerLevel: nat, layout: Layout)

  datatype Decoration = DefaultDecoration | Undecorated

  datatype FunctionDeclaration = FunctionDeclaration(
    name: string,
    result: Parameter,
    parameters: seq<Parameter>,
    decoration: Decoration)

  /** An argument as the routine receives it: an integer, or a buffer's elements. */
  datatype Argument = Number(n: int) | Buffer(elements: seq<int>)

  datatype Invocation = Invocation(callee: FunctionDeclaration, arguments: seq<Argument>)

  datatype Context = Context(
    iterate: Layout -> seq<seq<int>>,
    interpret: Invocation -> Option<int>,
    emit: Invocation -> Option<int>)
  {
    /** The ordering guarantee of a context's For: every coordinate of the
        layout exactly once, row-major. */
    predicate RowMajorOn(layout: Layout)
    {
      iterate(layout) == RowMajor(layout.extents)
    }
  }
}
