# Value operations and dataflow node processing, in Dafny

This project models two parts of the Embedded Learning Library (ELL).

The first is the backend-independent operation layer of the `value` library, in `VectorOperations.cpp` and `MatrixOperations.cpp`. It covers:

- `Accumulate`;
- `Dot`, with its size and type checks and its choice between the `cblas_sdot`/`cblas_ddot` routines and a generic loop;
- the one- and two-dimensional `For`;
- `Sum`;
- `GEMM` and `GEMV`, which are not implemented;
- the elementwise `+ - * /` operators on vectors, matrices and scalars.

The second is the node-processing rule of the dataflow compiler in `Dataflow.cpp`.

The execution context is an explicit parameter instead of process-wide state (`ExecutionContext.Context`). It has three parts:

- `iterate`: the coordinate sequence its `For` yields for a layout;
- `interpret`: the interpreting (compute) context's attempt to invoke a named routine;
- `emit`: the emitting (LLVM) context's attempt.

Each attempt returns a result or declines (`None`). Operations that loop require the context to enumerate the layout in row-major order, each coordinate exactly once (`RowMajorOn`). That is the ordering guarantee every context gives.

Elements are unbounded integers, standing for the elements of any element type. Division is C++ integer division, which truncates toward zero (`Elementwise.Quotient`), for every element type, including Float and Double.

A `Values.Value` is a handle to storage. Its `data` array holds the elements in row-major order. `Vector` and `Matrix` each wrap one `Value`. `Copy` allocates new storage. Every operator builds its result on such a copy, and its contract states that the operand's elements are unchanged.

The compound assignments (`+=`, `-=`, `*=`, `/=`) are defined in files that are not part of this model. They are modelled once, on `Value`, as elementwise updates. Their type and shape checks are preconditions.

In `Dataflow`, the compiler keeps a `history` of events:

- `Delivered(node, var)`: a dependency was processed with a result;
- `Freed(var)`: the compiler freed a variable.

`Process` is specified by what it appends to this history.

Where the code dereferences an empty optional, the model returns `InternalInconsistency`. This happens in `Dot` when neither context accepts the call.

## Model

| member | source | states |
|---|---|---|
| VectorOperations.Accumulate | libraries/value/src/VectorOperations.cpp:25-32 | fails with InvalidArgument unless the vector is one-dimensional; otherwise returns a scalar of the initial value's type equal to the initial value plus the sum of all elements, folded in index order |
| VectorOperations.Dot | libraries/value/src/VectorOperations.cpp:34-137 | SizeMismatch whenever sizes differ (before any type check); TypeMismatch for equal sizes and different types; Float calls `cblas_sdot` and Double calls `cblas_ddot` with arguments (size, v1, v1's dimension-0 stride, v2, v2's dimension-0 stride) cast to 32-bit int, taking the interpreting context's result if it gives one, else the emitting context's call of the undecorated symbol, else InternalInconsistency, never the generic loop; any other type gives Σ v1[i]*v2[i] from zero, or InvalidArgument from For if v1 is not one-dimensional |
| VectorOperations.BlasDot | libraries/value/src/VectorOperations.cpp:47-66 | the routine is declared under its own name with default decoration, returning a scalar of the element type and taking (int32 n, pointer x with v1's layout, int32 incx, pointer y with v2's layout, int32 incy); it is called with (size of v1, v1, stride of v1's dimension 0, v2, stride of v2's dimension 0), each number through the 32-bit cast, so a size below 2^31 is passed unchanged |
| VectorOperations.Accelerated | libraries/value/src/VectorOperations.cpp:56-86 | the interpreting context's result is taken whenever it gives one; only when it declines is the undecorated symbol called through the emitting context, whose result is taken; when both decline the outcome is InternalInconsistency, the only error this path raises; a result has the requested element type |
| VectorOperations.For | libraries/value/src/VectorOperations.cpp:140-151 | fails with InvalidArgument exactly when the layout is not one-dimensional; otherwise `fn` is called once per index, with 0, 1, …, size-1 in that order |
| VectorOperations.ScalarPlusVector | libraries/value/src/VectorOperations.cpp:153-156 | `s + v` has the same elements as `v + s` (v[i] + s), in fresh storage; `v` unchanged |
| VectorOperations.VectorPlusScalar | libraries/value/src/VectorOperations.cpp:158-162 | result[i] == v[i] + s on a fresh copy with v's type and layout; `v` unchanged |
| VectorOperations.VectorPlusVector | libraries/value/src/VectorOperations.cpp:164-168 | result[i] == v1[i] + v2[i] on a fresh copy of v1; v1 and v2 unchanged |
| VectorOperations.ScalarMinusVector | libraries/value/src/VectorOperations.cpp:170-177 | result[i] == s - v[i] (not v[i] - s), written element by element into a fresh copy; InvalidArgument if v is not one-dimensional; `v` unchanged |
| VectorOperations.VectorMinusScalar | libraries/value/src/VectorOperations.cpp:179-183 | result[i] == v[i] - s on a fresh copy; `v` unchanged |
| VectorOperations.VectorMinusVector | libraries/value/src/VectorOperations.cpp:185-189 | result[i] == v1[i] - v2[i] on a fresh copy of v1; v1 and v2 unchanged |
| VectorOperations.ScalarTimesVector | libraries/value/src/VectorOperations.cpp:191-194 | `s * v` has the same elements as `v * s`; `v` unchanged |
| VectorOperations.VectorTimesScalar | libraries/value/src/VectorOperations.cpp:196-200 | result[i] == v[i] * s on a fresh copy; `v` unchanged |
| VectorOperations.ScalarDividedByVector | libraries/value/src/VectorOperations.cpp:202-209 | result[i] == s / v[i] (truncating) written element by element into a fresh copy, for nonzero v[i]; InvalidArgument if v is not one-dimensional; `v` unchanged |
| VectorOperations.VectorDividedByScalar | libraries/value/src/VectorOperations.cpp:211-215 | result[i] == v[i] / s (truncating) on a fresh copy, for nonzero s; `v` unchanged |
| MatrixOperations.Sum | libraries/value/src/MatrixOperations.cpp:20-29 | InvalidArgument unless two-dimensional; otherwise a scalar of the matrix's type equal to zero (the allocated scalar) plus the sum of every element m(row, column) |
| MatrixOperations.For | libraries/value/src/MatrixOperations.cpp:31-43 | fails with InvalidArgument exactly when the layout is not two-dimensional; otherwise `fn` gets rows × columns calls (row, column) within the extents, the k-th addressing the k-th stored element, so each element exactly once, row by row |
| MatrixOperations.GEMM | libraries/value/src/MatrixOperations.cpp:45 | always fails with NotImplemented, never returns a matrix |
| MatrixOperations.GEMV | libraries/value/src/MatrixOperations.cpp:47 | always fails with NotImplemented, never returns a vector |
| MatrixOperations.MatrixPlusMatrix | libraries/value/src/MatrixOperations.cpp:49-53 | result[i] == m1[i] + m2[i] on a fresh copy of m1; m1 and m2 unchanged |
| MatrixOperations.MatrixPlusScalar | libraries/value/src/MatrixOperations.cpp:55-59 | result[i] == m[i] + s on a fresh copy; `m` unchanged |
| MatrixOperations.MatrixMinusMatrix | libraries/value/src/MatrixOperations.cpp:61-65 | result[i] == m1[i] - m2[i] on a fresh copy of m1; m1 and m2 unchanged |
| MatrixOperations.MatrixMinusScalar | libraries/value/src/MatrixOperations.cpp:66-70 | result[i] == m[i] - s on a fresh copy; `m` unchanged |
| MatrixOperations.MatrixTimesScalar | libraries/value/src/MatrixOperations.cpp:72-76 | result[i] == m[i] * s on a fresh copy; `m` unchanged |
| MatrixOperations.MatrixDividedByScalar | libraries/value/src/MatrixOperations.cpp:78-82 | result[i] == m[i] / s (truncating) on a fresh copy, for nonzero s; `m` unchanged |
| Values.Value.Copy | libraries/value/src/VectorOperations.cpp:160 | the copy has fresh storage, the same type and layout, and equal elements |
| Values.Vector.Copy | libraries/value/src/VectorOperations.cpp:160 | a vector's copy is a vector over fresh storage with the same type, layout and elements |
| Values.Matrix.Copy | libraries/value/src/MatrixOperations.cpp:51 | a matrix's copy is a matrix over fresh storage with the same type, layout and elements |
| Values.Value.AddAssign | libraries/value/src/VectorOperations.cpp:161 | `+= s` adds s to every element in place |
| Values.Value.SubtractAssign | libraries/value/src/VectorOperations.cpp:182 | `-= s` subtracts s from every element in place |
| Values.Value.MultiplyAssign | libraries/value/src/VectorOperations.cpp:199 | `*= s` multiplies every element by s in place |
| Values.Value.DivideAssign | libraries/value/src/VectorOperations.cpp:214 | `/= s` divides every element by nonzero s in place, truncating |
| Values.Value.AddAssignElementwise | libraries/value/src/VectorOperations.cpp:167 | `+= v2` adds v2's elements pairwise in place, correct even when v2 aliases the target |
| Values.Value.SubtractAssignElementwise | libraries/value/src/VectorOperations.cpp:188 | `-= v2` subtracts v2's elements pairwise in place, correct even when v2 aliases the target |
| Values.Int32Cast | libraries/value/src/VectorOperations.cpp:62-66 | `static_cast<int>` of a size or stride lies in the 32-bit range, is congruent to its input modulo 2^32, and leaves values below 2^31 unchanged |
| ExecutionContext.RowMajorVector | libraries/value/src/VectorOperations.cpp:150 | the coordinates of a one-dimensional layout of extent n are [0], [1], …, [n-1] |
| ExecutionContext.RowMajorMatrix | libraries/value/src/MatrixOperations.cpp:40-42 | the coordinates of a rows × columns layout are rows·columns pairs within the extents, the k-th at row-major offset k |
| Elementwise.SumConcat | libraries/value/src/VectorOperations.cpp:25-32 | the left fold of a concatenation is the sum of the folds of its parts |
| Elementwise.SumOfZeros | libraries/value/src/MatrixOperations.cpp:20-29 | an all-zero matrix sums to zero |
| Elementwise.SumOfFirstNaturals | libraries/value/src/MatrixOperations.cpp:20-29 | elements 1..n sum to n(n+1)/2, so a 3 × 4 matrix holding 1..12 sums to 78 |
| Elementwise.DotProductIsSumOfProducts | libraries/value/src/VectorOperations.cpp:131-137 | the generic Dot result is the sum of the pointwise products v1[i]*v2[i] |
| Elementwise.DotProductSymmetric | libraries/value/src/VectorOperations.cpp:131-137 | the generic Dot result does not depend on operand order |
| Elementwise.QuotientTruncates | libraries/value/src/VectorOperations.cpp:206 | integer `/` obeys C++'s rule: quotient × divisor + remainder == dividend, the remainder smaller than the divisor and never of the opposite sign of the dividend |
| Elementwise.QuotientOfMultiple | libraries/value/src/VectorOperations.cpp:214 | (x * c) / c == x for nonzero c |
| Elementwise.SubtractUndoesAdd | libraries/value/src/VectorOperations.cpp:158-183 | (v + s) - s == v |
| Elementwise.DivideUndoesMultiply | libraries/value/src/VectorOperations.cpp:196-215 | (v * s) / s == v for nonzero s |
| Elementwise.SubtractUndoesAddElementwise | libraries/value/src/VectorOperations.cpp:164-189 | (v1 + v2) - v2 == v1 |
| Elementwise.ScalarSubtractNegates | libraries/value/src/VectorOperations.cpp:170-183 | s - v is the elementwise negation of v - s |
| Dataflow.DataNode.Process | libraries/compiler/src/Dataflow.cpp:9-17 | with no result from OnProcess nothing is notified or freed; with a result every dependency is processed with it in index order, then the result is freed |
| Dataflow.DataNode.OnProcess | libraries/compiler/src/Dataflow.cpp:11 | returns the node's kind-specific result, possibly null |
| Dataflow.DataNode.NotifyDependencies | libraries/compiler/src/Dataflow.cpp:24-30 | appends one delivery of the result per dependency entry, in index order 0..n-1, and nothing else |
| Dataflow.DataNode.Receive | libraries/compiler/src/Dataflow.cpp:28 | processing a dependency with a result records exactly that delivery |
| Dataflow.DataNode.OnProcessComplete | libraries/compiler/src/Dataflow.cpp:19-22 | frees the result through the compiler, exactly once |
| Dataflow.Compiler.FreeVar | libraries/compiler/src/Dataflow.cpp:21 | records that the variable was freed |
| Dataflow.DeliveriesCountRecipients | libraries/compiler/src/Dataflow.cpp:24-30 | each dependency receives the result as many times as it is listed, so once per entry |
| Dataflow.NotifyThenFree | libraries/compiler/src/Dataflow.cpp:9-30 | Process's events are the deliveries in index order followed by a single free of the result, which comes after every delivery |
| Dataflow.DataFlowGraph.GetNodeAt | libraries/compiler/src/Dataflow.cpp:32-35 | returns the node at position `offset`, which must be below the node count |
| Dataflow.DataNode.Literal | libraries/compiler/src/Dataflow.cpp:45-49 | a literal node wraps the given variable, which must not be null, and processing it yields that variable |
| Dataflow.DataNode.Binary | libraries/compiler/src/Dataflow.cpp:37-39 | a binary node starts with no dependencies; what processing it produces (a variable, or null) is a constructor parameter, so the `Process` contract covers binary nodes that produce a result |

## Left out

- The numeric bodies of `math::Blas::Dot`, of `DeclareFunction`/`Define`/`Call`, and of the LLVM emission. They are the opaque `interpret` and `emit` attempts of `Context`.
- The internals of the compute and LLVM contexts, and the process-wide `GetContext()`. The context is a parameter.
- Floating-point arithmetic and fixed-width integers. Elements of every element type are unbounded integers: Byte, Char8, Int16, Int32 and Int64 do not wrap on overflow. `/` truncates for every element type, although Float and Double divide exactly, up to rounding.
- Strided memory addressing. Storage holds the elements in logical row-major order. Layout increments appear only as the stride arguments passed to the BLAS routines.
- Window functions (`WindowFunctions.h`): floating-point formulas outside this core.
- Vector.cpp, Matrix.cpp and Scalar.cpp are not part of this model. They define the compound assignments, `Copy`, `Size` and element access. They are modelled as elementwise updates with their type and shape checks as preconditions.
- Values.Value.AddAssign: a type mismatch is excluded by a precondition rather than raised as an error. The same holds for the other compound assignments and the operators built on them.
- VectorOperations.Accumulate: requires the initial value's type to equal the vector's, which `Scalar`'s `+=` is assumed to check. This also applies when the loop would not run.
- VectorOperations.Dot: requires both layouts to have a dimension 0 for the stride arguments, even on the error paths. The generic result starts from zero of v1's type, since the default `Scalar` constructor is defined in Scalar.cpp, which is not part of this model.
- VectorOperations.ScalarDividedByVector: a one-dimensional `v` must have only nonzero elements, because integer division by zero is undefined in C++. It must also have the scalar's element type, the check the scalar arithmetic outside this model is assumed to make. Any other layout fails with InvalidArgument before any division, so it has neither requirement.
- VectorOperations.ScalarMinusVector: a one-dimensional `v` must have the scalar's element type, the check the scalar arithmetic outside this model is assumed to make. Any other layout fails with InvalidArgument with no requirement.
- Dataflow.DataNode.Receive: the three-argument `Process` overload that a dependency runs (declared in Dataflow.h) is not part of this model. Only its invocation is recorded.
- Dataflow.DataNode.OnProcess: the kind-specific `OnProcess` of literal and binary nodes is not part of this model. Its result is the node's `produced` field.
- Dataflow.Compiler.FreeVar: the compiler's variable allocator is not modelled beyond a record of freed variables.
- Wiring dependencies into nodes and nodes into the graph happens in headers that are not part of this model.
- Dataflow.DataNode.Binary: the constructor takes the result its kind-specific OnProcess would produce, because that OnProcess is not part of this model. The source constructor takes no argument.
- Dataflow.DataNode.Process: there is no "already processed" guard, because `DataNode::Process` (Dataflow.cpp:9-17) has none.
