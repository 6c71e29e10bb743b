# CSR sparse matrix, dense vectors and Conjugate Gradient — a Dafny model

This project models the linear-algebra core of a small computational fluid
dynamics study library. The library has three parts:

- a `SparseMatrix` in compressed-sparse-row (CSR) form, built by `setValue`
  calls that are assumed to come in row-major order, with a matrix-vector
  product `operator*`;
- a dense `Vector` value type with constructors, `+`, `-` and scalar `*`;
- the free functions `dot_product` and `norm`, and the Conjugate Gradient
  solver `solve_cg` built on them.

All arithmetic is exact: `double` becomes Dafny `real`. Vectors are
`seq<real>`, and the CSR matrix is an immutable record with a `Valid`
predicate, its class invariant. `setValue` and `operator*` are pure. A thrown
`std::out_of_range` or `std::length_error` becomes `Failure(OutOfRange)` or
`Failure(LengthError)` of `Outcomes.Result`.

Modules:

- `Outcomes`: the two error kinds and `Result`.
- `Vectors`: the `Vector` constructors and element-wise operations.
- `Products`: `dot_product`, `norm` (squared) and the solver's tolerance test.
- `SparseMatrix`: the CSR record, its constructor, `setValue`, `operator*` and
  the linearity of the product.
- `CsrBuilder`: a sequence of `setValue` calls (`Build`). It shows what the
  row-major assumption buys: each row's segment holds exactly that row's
  insertions. It also gives an independent reference product read straight
  from the insertions.
- `ConjugateGradient`: `solve_cg` as a bounded loop, with the residual
  invariant `r = b - A x`. `Next` is one exact Conjugate Gradient update and
  `Run` is `k` of them; the solver's result is tied to the state `Run`
  reaches.
- `Scenarios`: the 3x3 example the program checks, an out-of-order insertion
  that misfiles entries, and a repeated cell.

Three behaviours of the code that the model keeps:

- `solve_cg` has no guard for a zero right-hand side. With `b = 0` the
  threshold `tolerance * ‖b‖` is 0, and the strict `<` test can never pass.
- `solve_cg` returns only `x`, whether the test passed or the iteration bound
  ran out; the caller is not told which.
- `solve_cg` does not check that the matrix is square; `A * p` inside the
  loop throws `length_error` when `rows != cols`.

The model returns the same `x`, except where it stops with `ZeroCurvature`
(see "## Left out"). It adds a status and an iteration count to the result so
the contract can say how the loop ended.

## Model

| member | source | states |
|---|---|---|
| SparseMatrix.New | src/SparseMatrix.cpp:7-15 | A fresh matrix satisfies the CSR invariant, keeps its dimensions, has no values or column indices, and has `rows + 1` offsets that are all zero. |
| SparseMatrix.NewIgnoresCapacity | src/SparseMatrix.cpp:10-11 | The capacity hint has no observable effect: two constructions differing only in capacity are equal. |
| SparseMatrix.SetValue | src/SparseMatrix.cpp:18-32 | Fails with out-of-range exactly when `row >= rows` or `col >= cols`. On success, dimensions are unchanged and exactly one value and one column are appended. Offsets up to `row` are unchanged and offsets after `row` go up by one. The CSR invariant (zero first offset, monotone offsets, last offset equal to the number of values, parallel arrays, columns below `cols`) is preserved. |
| SparseMatrix.Product | src/SparseMatrix.cpp:40-63 | `A * x` has `rows` elements. Element `i` is the sum over row `i`'s segment, and a row with an empty segment gives 0. |
| SparseMatrix.Multiply | src/SparseMatrix.cpp:35-64 | Fails with length-error exactly when `x` does not have `cols` elements. Otherwise it returns `rows` elements, each the left-to-right sum of `values[k] * x[colIndices[k]]` over that row's segment. |
| SparseMatrix.ProductAdd | src/SparseMatrix.cpp:41-63 | The product maps `x + z` to `A x + A z`. |
| SparseMatrix.ProductScale | src/SparseMatrix.cpp:41-63 | The product maps `x * s` to `(A x) * s`. |
| SparseMatrix.ProductZero | src/SparseMatrix.cpp:41-63 | The zero vector is mapped to the zero vector. |
| SparseMatrix.SegmentSum | src/SparseMatrix.cpp:52-58 | The inner loop of `operator*` over positions `[lo, hi)`: the left-to-right sum of `values[k] * x[colIndices[k]]` from 0. It has no contract of its own; `SparseMatrix.Multiply` proves the loop computes it and the rows below give its linearity. |
| SparseMatrix.SegmentSumAdd | src/SparseMatrix.cpp:45-58 | A segment sum over `x + z` is the sum of the segment sums over `x` and over `z`. |
| SparseMatrix.SegmentSumScale | src/SparseMatrix.cpp:45-58 | A segment sum over `x * s` is `s` times the segment sum over `x`. |
| CsrBuilder.Build | src/SparseMatrix.cpp:7-32 | Whatever the insertion order, a constructor followed by successful `setValue` calls yields a matrix that satisfies the CSR invariant, with the given dimensions. |
| CsrBuilder.BuildContents | src/SparseMatrix.cpp:18-31 | For any insertion order: the build succeeds exactly when every insertion is in range, and otherwise fails out-of-range. Values and columns are stored in insertion order. `rowOffsets[i]` is the number of insertions into rows before `i`. |
| CsrBuilder.RowMajorSegment | src/SparseMatrix.cpp:17-31 | With insertions in non-decreasing row order, the insertions numbered from "count before row `i`" to "count before row `i + 1`" are exactly the row-`i` insertions, in order. |
| CsrBuilder.RowMajorBuild | src/SparseMatrix.cpp:17-31 | Row-major insertions within range always succeed. Each row's segment of values and of column indices is exactly the values and columns inserted into that row, in insertion order, so a repeated cell is kept twice. |
| CsrBuilder.SegmentSumEntries | src/SparseMatrix.cpp:52-58 | Summing stored entries over a segment equals summing `value * x[col]` over the insertions that produced them. |
| CsrBuilder.BuildMultiplyMatchesReference | src/SparseMatrix.cpp:17-63 | With row-major insertions within range, building and then multiplying gives the reference product computed straight from the insertions (row `i` is the sum over row `i`'s insertions). |
| CsrBuilder.CountBelowAll | src/SparseMatrix.cpp:26-31 | Past the last row, the count of insertions into earlier rows is the total number of insertions. |
| CsrBuilder.RowEntriesNone | src/SparseMatrix.cpp:26-31 | A row that no insertion names has no entries. |
| Scenarios.ExampleBuild | main.cpp:25-32 | The five insertions of the 3x3 example give values `[1,2,3,4,5]`, columns `[0,2,1,0,2]` and offsets `[0,2,3,5]`. |
| Scenarios.ThreeByThreeExample | main.cpp:25-54 | The 3x3 example times `[1,2,3]` is `[7,6,19]`. |
| Scenarios.OutOfOrderBuild | src/SparseMatrix.cpp:17-31 | Inserting row 1 before row 0 in a 2x1 matrix leaves values `[1,2]` and offsets `[0,1,2]`, so row 0 owns the value inserted for row 1. |
| Scenarios.OutOfOrderMisfiles | src/SparseMatrix.cpp:17 | Under out-of-order insertion, row 0's segment holds `[1]` although row 0 received `[2]`. The product is `[1,2]` where the insertions describe `[2,1]`. |
| Scenarios.RepeatedCellAccumulates | src/SparseMatrix.cpp:23-24 | Setting one cell twice stores both values, and the product adds them. |
| Vectors.Empty | src/vector.cpp:16 | The default vector has no elements. |
| Vectors.Zeros | src/vector.cpp:20 | `Vector(n)` has exactly `n` elements, all `0.0`. |
| Vectors.FromData | src/vector.cpp:24 | `Vector(data)` and the copy constructor have the same length and elements as their source. |
| Vectors.Add | include/vector.hpp:98-103 | `a + b` has the operands' length, and its elements are the pairwise sums. |
| Vectors.Sub | include/vector.hpp:105-110 | `a - b` has the operands' length, and its elements are the pairwise differences. |
| Vectors.Scale | include/vector.hpp:112-117 | `v * s` has `v`'s length, and every element is multiplied by `s`. |
| Vectors.SubAddCancel | include/vector.hpp:98-110 | Subtraction undoes addition and addition undoes subtraction. |
| Vectors.AddCommutes | include/vector.hpp:98-103 | Addition is commutative. |
| Vectors.AddZerosIdentity | include/vector.hpp:25-29 | Adding the zero vector changes nothing, and the zero vector is any vector scaled by 0. |
| Vectors.ScaleScale | include/vector.hpp:112-117 | Scaling by `s` and then by `t` is scaling by `s * t`. |
| Vectors.SubAdd | include/vector.hpp:98-110 | `a - (b + c)` equals `(a - b) - c`. |
| Products.Dot | src/cfd.cpp:20-24 | The accumulating loop's value: the left-to-right sum of `a[i] * b[i]` from 0. It has no contract of its own; `Products.DotProduct` proves the loop computes it, and the rows below state its algebra. |
| Products.DotProduct | src/cfd.cpp:15-25 | Fails with length-error exactly when the sizes differ. Otherwise it returns the left-to-right sum of `a[i] * b[i]` from 0, which is 0 for empty vectors. |
| Products.DotSymmetric | src/cfd.cpp:20-24 | The dot product is symmetric. |
| Products.DotSelf | src/cfd.cpp:20-24 | `a · a` is never negative; it is 0 for the zero vector and positive otherwise. |
| Products.DotZeroLeft | src/cfd.cpp:20-24 | The zero vector dotted with anything is 0. |
| Products.DotAddLeft | src/cfd.cpp:20-24 | The dot product is additive in its left argument. |
| Products.DotScaleLeft | src/cfd.cpp:20-24 | Scaling the left argument scales the dot product. |
| Products.NormSquared | src/cfd.cpp:28-30 | The squared norm is never negative, and it is 0 exactly for the zero vector. |
| Products.NormTestSquared | src/cfd.cpp:61 | For non-negative square roots `s` of `rr` and `t` of `bb`, `s < tolerance * t` holds exactly when the squared test `0 < tolerance && rr < tolerance² · bb` holds. |
| Products.ZeroThresholdNeverPasses | src/cfd.cpp:55-61 | With `‖b‖ = 0` the strict relative test never passes. |
| ConjugateGradient.Residual | src/cfd.cpp:41 | `b - A x`, with one element per matrix row. |
| ConjugateGradient.ResidualUpdate | src/cfd.cpp:75-78 | If `r = b - A x`, then `r - alpha Ap = b - A (x + alpha p)`, so the residual stays exact through the update. |
| ConjugateGradient.ZeroDirectionCurvature | src/cfd.cpp:67-71 | A zero search direction has `p · Ap = 0`. |
| ConjugateGradient.ZeroStartResidual | src/cfd.cpp:38-47 | With `b = 0` and `x0 = 0` the initial residual is zero. |
| ConjugateGradient.ZeroResidualZeroCurvature | src/cfd.cpp:66-71 | In a loop state where `rr = 0` or `p = 0`, the denominator `p · Ap` is 0. |
| ConjugateGradient.ZeroNumeratorNextDirection | src/cfd.cpp:86-91 | A zero new residual makes `beta = 0`, and so the next direction `r_new + p * 0` is zero. |
| ConjugateGradient.Start | src/cfd.cpp:38-52 | The starting state `x = x0`, `r = b - A x0`, `p = r`, `rr = r · r` satisfies the loop invariant. |
| ConjugateGradient.Next | src/cfd.cpp:66-95 | One exact update from a state with `rr` and `p · Ap` nonzero. Its contract states that it keeps every vector's size: `x` and `p` have `cols` elements and `r` has `rows`. The update formulas are its body; `Iterate` states them as a contract and `NextInv` proves the invariant is kept. |
| ConjugateGradient.NextInv | src/cfd.cpp:66-95 | When `p · Ap` is nonzero, `rr` is nonzero too, so both divisions are defined. The update keeps the loop invariant: the new `r` is `b - A x` for the new `x`, the new `rr` is its squared norm, and a zero `rr` comes with a zero direction. |
| ConjugateGradient.Iterate | src/cfd.cpp:66-95 | One iteration past the test. It fails exactly when `A * p` throws (`rows != cols`). It stalls exactly when `p · Ap = 0`, in particular when `p = 0`. When it advances, `rr` and `p · Ap` are nonzero, `alpha = rr / (p · Ap)`, `x` becomes `x + p alpha`, `r` becomes `r - Ap alpha`, the new `rr` is `r_new · r_new`, and `p` becomes `r_new + p (rr_new / rr)`. That state is `Next`, and the loop invariant holds for it. |
| ConjugateGradient.Run | src/cfd.cpp:58-95 | `k` updates from `s`, stopping as `Stalled` at the first state where an update is undefined. No run reports a size mismatch, every state it reaches keeps the vector sizes, and zero updates leave `s`. |
| ConjugateGradient.RunStep | src/cfd.cpp:58-95 | After `k` updates have reached state `t`, update `k + 1` is `Next` of `t` when `t` admits an update, and the run stalls otherwise. |
| ConjugateGradient.RunFarEnd | src/cfd.cpp:58-95 | After `k` updates have reached `t`, `k + 1` updates are one more update from `t`. |
| ConjugateGradient.TestFailedShift | src/cfd.cpp:58-64 | The test failed on each of the first `k + 1` states from `s` exactly when it failed on `s` and on each of the first `k` states after one update. |
| ConjugateGradient.Rounds | src/cfd.cpp:58-100 | The loop round by round from round `k`. It fails only with length-error and only on a non-square matrix. A result reports between `k` and `max_iter` updates, and `IterationLimit` only at `max_iter`. |
| ConjugateGradient.RoundsNext | src/cfd.cpp:58-95 | A round that starts below `max_iter`, fails the test and meets nonzero `p · Ap` on a square matrix has `rr` nonzero, keeps the loop invariant, and returns whatever the next round from `Next` returns. |
| ConjugateGradient.Loop | src/cfd.cpp:58-100 | The loop of at most `max_iter` rounds of "test, then update" returns exactly the round-by-round definition `Rounds`: `Converged` at the first passing test, length-error when `A * p` throws, `ZeroCurvature` when `p · Ap = 0`, and `IterationLimit` after `max_iter` updates. |
| ConjugateGradient.RoundsNonSquare | src/cfd.cpp:58-67 | On a non-square matrix the loop fails exactly when some round starts and the first test fails. Otherwise it returns `x0` and its residual after 0 updates, `Converged` only when `max_iter > 0` and the test passed, and `IterationLimit` only when `max_iter = 0`. |
| ConjugateGradient.RoundsStop | src/cfd.cpp:58-71 | When a round stops (the bound is reached, the test passes, or `p · Ap = 0`), the result meets the same exit description as in `RoundsSquare`, for the state the round was entered in. |
| ConjugateGradient.ExitBack | src/cfd.cpp:58-95 | A result reached from the state after one update is also reached from the state before it: the run is one update longer, and the test failed on the earlier state too. |
| ConjugateGradient.RoundsSquare | src/cfd.cpp:58-100 | On a square matrix the loop always returns an iterate. If the reported count is `n`, the iterate and residual are those of the state `Run` reaches after `n` updates, the residual is `b - A x`, and the test failed on every earlier state. `Converged` means `n < max_iter` and the test passed on that state. `IterationLimit` means `n = max_iter`. `ZeroCurvature` means `n < max_iter`, the test failed there, and `p · Ap = 0`. |
| ConjugateGradient.SolveCg | src/cfd.cpp:34-101 | Fails with length-error when `x0` has the wrong size. For a non-square matrix it fails exactly when the loop reaches `A * p`; a square matrix always succeeds. It makes at most `max_iter` updates, and the returned residual is `b - A x`. `Converged` means fewer than `max_iter` updates were made and the relative test passed. `IterationLimit` means exactly `max_iter` updates. `ZeroCurvature` means fewer than `max_iter` updates and a failed test. On a square matrix the returned `x` is the state of the exact update sequence from `x0` after the reported number of updates, with the test failed on every earlier state; `ZeroCurvature` means that state has `p · Ap = 0`. `max_iter = 0` returns `x0` unchanged. An initially passing test returns `x0` after 0 iterations. With `b = 0` the result is never `Converged`. With `b = x0 = 0` on a square matrix and `max_iter > 0`, where the code would compute 0/0, the result is `ZeroCurvature` after 0 iterations; with `max_iter = 0` it is `IterationLimit`, and on a non-square matrix the first round throws length-error. |

## Left out

- Console output: `hello_cfd`, every progress and convergence message of `solve_cg`, and the printing in `main.cpp` are I/O; only `main.cpp`'s expected values are kept, as `Scenarios.ThreeByThreeExample`.
- Floating point: `double` is modelled as exact `real`, so rounding, overflow to infinity and NaN do not occur in the model.
- `std::sqrt`: Dafny has no real square root. `norm` is modelled by its square (`Products.NormSquared`), and the test `r_norm < tolerance * b_norm` by its squared form (`Products.BelowTolerance`). `Products.NormTestSquared` proves the two agree for non-negative roots.
- ConjugateGradient.SolveCg: where the code divides by `p · Ap == 0` and carries on with infinities or NaN, the model stops with status `ZeroCurvature`. With exact reals that division has no value to continue with.
- ConjugateGradient.SolveCg: convergence to the true solution of a symmetric positive-definite system is Krylov-subspace theory and is not stated. This includes the tridiagonal 3x3 system converging in three iterations. The contract ties the returned iterate to the exact update sequence (`Run`), not to the solution of `A x = b`.
- ConjugateGradient.SolveCg: requires `|b| == rows`. The body of `Vector::operator-` is not part of this model, so what it does with mismatched lengths is unknown.
- Vectors.Add, Vectors.Sub: require equal lengths, for the same reason. `operator[]` is sequence indexing with an in-bounds precondition, and `size()` is `|v|`.
- C++ ownership machinery: the copy and move constructors and assignments (copy-and-swap) and the destructor collapse to `seq` value semantics. The copy constructor is `Vectors.FromData`. A moved-from vector's emptiness has no counterpart.
- The `reserve(capacity)` calls have no observable effect (`SparseMatrix.NewIgnoresCapacity`).
- `size_t` wrap-around: dimensions, indices and offsets are unbounded `nat`. `num_rows + 1` and the offset increments cannot overflow in the model.
- `operator*` being `const`: the matrix is an immutable value, so the product cannot change it and there is no separate contract for that.
- include/cfd.hpp and include/linearAlgebraLib.hpp hold only declarations and includes.
