# LeanBLAS C glue, modelled in Dafny

LeanBLAS binds Lean 4 to CBLAS through a layer of C functions. This project
models that layer, leaving the numerics aside:

- how the copy-on-write ownership guard and the array-header conversions treat
  Lean scalar arrays;
- how Lean's enumeration tags become CBLAS enumerations;
- how a data pointer is found in a value that may arrive in one of two run-time
  shapes;
- the strided loops of the non-standard Level-1 operations (const, sum, axpby,
  scaladd, imax/imin, element-wise mul, div and maps), including the optimiser
  that decides whether axpby/mul/div write X or Y in place;
- the marshalling contract of every wrapper around a standard CBLAS routine:
  which buffer is made exclusive, written and returned, which are only read,
  how tags, sizes, scalars and pointer offsets reach the kernel.

Modules, one per component:

- `Runtime` (Runtime.dfy): the slice of the Lean runtime the glue touches. A
  `ScalarArray` class has the header fields `elemSize`, `size` and `capacity`,
  the payload bytes, and an `exclusive` flag standing for a reference count of
  one. An `Obj` datatype lists the run-time shapes a boxed value can have.
  It also holds the precision `Prec` (d, s, z) shared by the Level-1 and
  Level-2 modules, and `CInt`, the `(int)` cast applied to every size and
  increment passed to CBLAS.
- `Tags` (Tags.dfy): the four tag maps of c/util.c.
- `Util` (Util.dfy): the ownership guard and the four array conversions of
  c/util.c.
- `Cptr` (Cptr.dfy): the pointer helpers of c/util.h and c/complex_util.h, as
  functions of the value.
- `Strided` (Strided.dfy): addressing `off + i*inc`. It also gives the
  specification functions of the element loops: `Update` rewrites the n
  logical positions in order, and `StridedSum` accumulates them.
- `LevelOne` (LevelOne.dfy): the non-standard Level-1 operations. The double
  and single-precision variants differ in the size test of the optimiser
  and in the points listed under "Left out" (the `(float)` casts, the
  boxing of dsum's result, the `f` forms of libm), so they are one method
  with a `RealPrec` argument. A
  Float64Array/Float32Array is an `array<real>` together with the exclusivity
  its reference count gave at entry. Its `lean_sarray_size` is its byte count,
  `ElemBytes * Length`, because both array types are ByteArrays at run time.
- `Marshal` (Marshal.dfy): the standard wrappers of c/levelone.c and all
  wrappers of c/leveltwo.c, as a table over a `Routine` datatype. `Marshal`
  builds the kernel's argument list and `Invoke` runs one wrapper. The kernel
  is a parameter: a function giving the new contents of an output buffer and
  the value of a reduction.

Points where the model follows the code rather than the comments or the
expected behaviour:

- The tag maps never reject a tag, not even one outside the Lean
  enumeration. Order sends every non-zero byte to column-major; transpose,
  uplo and diag fall back to NoTrans, Upper and NonUnit.
- `leanblas_complex_float_array_to_byte_array` reads field 0 as a
  FloatArray: it copies `8 * m_size` bytes. The pointer helpers of c/util.h
  describe field 0 as a ByteArray.
- The complex Level-2 wrappers add `offA`, `offX` and `offY` to a `double*`
  before casting to `double complex*`, so they count offsets in doubles. The
  complex Level-1 wrappers add `2*offX`, so they count whole complex elements.
  The model keeps both conventions; `ComplexOffsetUnits` states them.

## Model

| member | source | states |
|---|---|---|
| Tags.CblasOrder | c/util.c:22-28 | the order map gives RowMajor exactly for tag 0 and ColMajor for every other byte |
| Tags.CblasTranspose | c/util.c:30-41 | the transpose map gives Trans exactly for 1 and ConjTrans exactly for 2; every other byte, including out-of-range ones, gives NoTrans |
| Tags.CblasUplo | c/util.c:43-52 | the uplo map gives Lower exactly for tag 1 and Upper otherwise |
| Tags.CblasDiag | c/util.c:54-63 | the diag map gives Unit exactly for tag 1 and NonUnit otherwise |
| Tags.TagRoundTrip | c/util.c:22-63 | each enumeration value, sent as its Lean constructor index, comes back as itself |
| Tags.OutOfRangeTagsFallBack | c/util.c:22-63 | a tag beyond the enumeration behaves like the default's tag; no map fails |
| Tags.DecodeIsIdempotent | c/util.c:22-63 | re-encoding a decoded tag and decoding again changes nothing |
| Util.EnsureExclusive | c/util.c:7-19 | an exclusive buffer is kept as it is; a shared one is replaced by a fresh copy with identical contents; the original is never written |
| Util.FloatToByteKeepsByteLength | c/util.c:65-74 | rescaling the counts by 8 and setting element size 1 keeps the number of payload bytes covered by size and by capacity |
| Util.FloatByteFloat | c/util.c:65-85 | float-to-byte then byte-to-float gives back the header exactly |
| Util.ByteFloatByte | c/util.c:65-85 | byte-to-float then float-to-byte gives back the header exactly when size and capacity are multiples of 8 (both directions) |
| Util.WholeWordsPrefix | c/util.c:76-85 | the truncating division by 8 drops bytes exactly when the byte length is not a multiple of 8 |
| Util.FloatArrayToByteArray | c/util.c:65-74 | the same object is returned when exclusive, a fresh copy otherwise with the original unchanged; size and capacity are multiplied by 8, element size becomes 1; the payload bytes are unchanged |
| Util.ByteArrayToFloatArray | c/util.c:76-85 | reuse or copy as above; size and capacity divided by 8 with truncation, element size 8; the contents are the original bytes cut to whole 8-byte words |
| Util.ComplexFloatArrayToByteArray | c/util.c:87-116 | for any non-null object other than a boxed Float, panics with the source's message if the value is not a constructor or if field 0 is null; otherwise a fresh exclusive array of `8 * size` bytes, size equal to capacity, holding a copy of field 0's payload |
| Util.ByteArrayToComplexFloatArray | c/util.c:118-134 | the byte-to-float conversion, reusing or copying, wrapped in a one-field constructor |
| Util.ByteComplexByte | c/util.c:87-134 | byte to complex and back reproduces the original bytes and size when the byte length is a multiple of 8; the capacity becomes the size |
| Cptr.ShapeDispatch | c/util.h:15-46 | for any non-null object other than a boxed Float, a pointer is produced exactly for a scalar array or a constructor; it points into that array or into field 0's array, read as elements of the requested width |
| Cptr.ComplexFloat64ArrayCptr | c/util.h:15-30 | for any non-null object other than a boxed Float: a scalar array gives its own data, a constructor gives field 0's data, and any other object gives NULL |
| Cptr.Float32ArrayCptr | c/util.h:34-46 | the same three-way dispatch on the same inputs, with 4-byte elements |
| Cptr.CtorComplexFloat64ArrayCptr | c/complex_util.h:7-11 | defined only for a constructor whose field 0 is an array; gives that array's data as 8-byte elements |
| Cptr.CtorComplexFloat32ArrayCptr | c/complex_util.h:14-18 | the same field-0 read, as 4-byte elements |
| Cptr.FlatteningTransparent | c/util.h:19-25 | the bare array and a constructor wrapping it in field 0 give the same pointer |
| Cptr.HeadersAgreeOnCtor | c/complex_util.h:7-18 | on constructor input the util.h and complex_util.h helpers return the same data |
| Cptr.Float32OnlyReinterprets | c/util.h:34-46 | the Float32 helper fails exactly when the complex helper fails and otherwise differs only in element width |
| Strided.UpdateFrame | c/levelone.c:444-452 | a strided loop leaves every index that is not one of its n logical positions unchanged |
| Strided.UpdateAt | c/levelone.c:444-452 | with a positive stride, logical element i ends up as the step applied once to its original value |
| Strided.SumReadsOnlyPositions | c/levelone.c:408-415 | the strided sum depends only on the values at the n logical positions |
| LevelOne.MapInPlace | c/levelone.c:537-544 | the element loop leaves the buffer equal to the in-order strided rewrite of its old contents |
| LevelOne.ZipInPlace | c/levelone.c:493-495 | the two-vector loop leaves the written buffer equal to the strided rewrite combining its old values with the other vector's logical elements; the other vector is not written |
| LevelOne.Const | c/levelone.c:394-405 | a fresh vector of exactly N elements, each equal to `a` |
| LevelOne.Sum | c/levelone.c:408-415 | the result is the in-order sum from 0 of the elements at `offX + i*incX` for i < N |
| LevelOne.ImaxRe | c/levelone.c:455-466 | returns the buffer index `offX + k*incX`, where k is the first logical index attaining the maximum; `x[offX]` is read even when N is 0 |
| LevelOne.IminRe | c/levelone.c:469-480 | the same for the first logical index attaining the minimum |
| LevelOne.Scaladd | c/levelone.c:444-452 | X is made exclusive, then each logical element becomes `alpha*x + beta`; everything else in X is kept |
| LevelOne.Elementwise | c/levelone.c:537-604 | X is made exclusive, then each logical element is replaced by inv, fabs, sqrt, exp, log, sin or cos of itself; everything else is kept |
| LevelOne.FastPathCoversWholeBuffers | c/levelone.c:420-423 | when the in-place-on-X branch is taken on in-range vectors, both buffers are exactly the N logical elements; for double precision this forces N = 0 |
| LevelOne.SizeTestIntendedIsFullCoverage | c/levelone.c:746-749 | the intended size test holds exactly when the buffer has N elements, and the single-precision test as written is that test |
| LevelOne.DoubleFastPathOnlyWhenEmpty | c/levelone.c:420-423 | as written, the double-precision fast path can fire only on empty vectors |
| LevelOne.FullVectorMissesDoubleFastPath | c/levelone.c:420-423 | a concrete case, N = 3 with X exclusive and Y shared, where the double test as written refuses the fast path while the intended and single-precision tests take it |
| LevelOne.IntendedFastPathOnFullVectors | c/levelone.c:419-423 | the corrected test fires exactly for an exclusive X and a shared Y that are whole contiguous N-element vectors |
| LevelOne.AsWrittenImpliesIntended | c/levelone.c:420-423 | whenever the test as written lets the fast path run, the corrected one would too |
| LevelOne.AxpbyRefAt | c/levelone.c:432-439 | at output position i axpby stores `alpha*x_i + beta*y_i`; when `(int)incY` is not positive, dscal returns without writing and the position holds `alpha*x_i + y_i` |
| LevelOne.ZeroStrideAccumulates | c/levelone.c:436-437 | daxpy with `incY = 0` leaves `y + alpha * (x_0 + … + x_{N-1})` in the one element of Y |
| LevelOne.ZeroIncrementIgnoresBeta | c/levelone.c:435-437 | for every input with `incY = 0`, the axpby result does not depend on beta, and its one written element is `y + alpha` times the strided sum of X |
| LevelOne.AxpbyRefFrame | c/levelone.c:432-439 | axpby leaves every index of Y that is not an output position as it was |
| LevelOne.MulDivRefAt | c/levelone.c:499-530 | at output position i mul stores `x_i*y_i` and div stores `x_i/y_i`, X being the numerator |
| LevelOne.SwappedWriteAgrees | c/levelone.c:484-534 | writing X with `h(x, y)` and writing Y with `g(y, x)` give the same vector when h and g agree, which is what makes the two branches of mul and div equivalent |
| LevelOne.AxpbyFastPathAgrees | c/levelone.c:418-441 | `scal(alpha, X)` then `axpy(beta, Y, X)` computes the same vector as `scal(beta, Y)` then `axpy(alpha, X, Y)` |
| LevelOne.Axpby | c/levelone.c:418-441 | the fast path is taken exactly under the condition as written; whichever branch runs, the returned buffer holds the reference axpby result; the fast path writes only X and returns it, the other path makes Y exclusive, writes only Y and returns it |
| LevelOne.Mul | c/levelone.c:484-508 | the same branch choice and effects, and the result is the element-wise product |
| LevelOne.Div | c/levelone.c:511-534 | the same branch choice and effects, and the result is the element-wise quotient with X as numerator |
| Runtime.CInt | c/levelone.c:22-26 | `(int)` of a size is the value congruent to it modulo 2^32 in the signed 32-bit range; sizes below 2^31 are passed unchanged |
| Marshal.KernelRoutine | c/levelone.c:44-70 | the kernel a wrapper calls is its namesake, except that zdot calls the conjugating `cblas_zdotc_sub` like zdotc; the arrays used and written do not change |
| Marshal.Marshal | c/leveltwo.c:29-674 | every tag reaches the kernel only through the util.c maps, the order tag is passed exactly by the Level-2 wrappers, and the kernel called is `KernelRoutine` of the wrapper; the Level-1 standard wrappers (c/levelone.c:22-376 and 620-706) are built the same way, with no tags, `(int)` sizes and increments and complex offsets doubled |
| Marshal.ZdotIsZdotc | c/levelone.c:44-70 | zdot and zdotc make the same kernel call for the same arguments, so both compute the conjugated dot product |
| Marshal.OperandsFollowRoles | c/leveltwo.c:29-41 | the kernel receives a pointer for exactly the arrays the wrapper uses, and the buffers it writes are among them |
| Marshal.TagsOnlyThroughMapping | c/leveltwo.c:108-109 | two requests whose tags map to the same enumerations produce the same kernel call |
| Marshal.UnknownTagsActAsDefaults | c/leveltwo.c:108-109 | an out-of-range tag (2 and up for order, uplo and diag, 3 and up for transpose) produces the same kernel call as the default's tag |
| Marshal.PackedOffsetHandling | c/leveltwo.c:162-259 | dtpsv passes A with no offset, so offA has no effect, while dtpmv adds offA, so two offsets give two calls |
| Marshal.ComplexOffsetUnits | c/levelone.c:97-107 | a complex vector offset reaches a Level-1 kernel as `2*off` doubles and a Level-2 kernel (c/leveltwo.c:318-341) as `off` doubles; the Level-2 matrix offset is `offA` doubles |
| Marshal.ComplexScalarsUnboxed | c/leveltwo.c:318-341 | complex Level-2 alpha and beta are read as boxed floats from constructor fields 0 and 1; zher's alpha is a plain real |
| Marshal.RunKernel | c/leveltwo.c:36-38 | the kernel writes only its output buffer, whose new contents are the kernel's function of the call and the buffers it was given |
| Marshal.Invoke | c/leveltwo.c:29-674 | a wrapper makes exactly its output buffers exclusive, lets the kernel write them, and returns them (the (X, Y) pair for swap and rot, a value for reductions); every buffer it does not own exclusively as an output keeps its contents; the Level-1 standard wrappers (c/levelone.c:97-366 and 620-706) follow the same protocol: swap and rot make X and Y exclusive, copy and axpy make Y exclusive, scal makes X exclusive |

## Left out

- The CBLAS kernels: each is a function parameter of `Invoke` (new output contents and reduction value), and dscal/daxpy inside axpby are their defining formulas, with dscal's early return for a non-positive `(int)` increment. What a kernel computes is not modelled.
- LevelOne.AxpbyRef: sizes and increments of 2^31 or more, which `(int)` turns into other values, reach dscal/daxpy as those values; the model applies the strided formula to the unconverted N and increments (only dscal's no-op on a non-positive converted increment is modelled), so a kernel's traversal with a negative increment is not captured.
- Floating point: elements are `real`, with exact `+` and `*`. Division and the libm functions (`fabs`, `sqrt`, `exp`, `log`, `sin`, `cos` and their `f` forms) are opaque fields of `LibM`. Rounding, NaN ordering in imax/imin and the `(float)` casts of the single-precision wrappers are not modelled.
- The return values of ddot, dnrm2, dasum, i?amax and their s/z forms are the kernel's value function. The 2-field result constructor of zdot/zdotc/zdotu and the pair constructor of swap/rot are represented by `Returned`, without their memory layout.
- `leanblas_complexfloat_parts`, used by zaxpy and zscal, is not part of this model. Those alphas reach the kernel as `Parts` of the boxed value.
- The Givens constructors drotg, drotmg, srotg and srotmg construct floats; drotmg also reads uninitialised inputs and prints.
- The boxing of dsum's result with `lean_box` on a double; only the accumulation is modelled.
- Reference counting beyond the exclusive/shared flag: the `lean_dec` of the buffer not returned, and the input of the complex-to-byte conversion, which is not released. Header bit layout and raw allocation are not modelled either.
- Out-of-bounds access: operations require their strided positions inside the buffer. The C code does not check this; it is the Lean caller's obligation.
- 64-bit `size_t` wrap-around in `off + i*inc`, `N*8` and `N*4`: indices are unbounded naturals.
- Util.EnsureExclusive: one generic method stands for both `ensure_exclusive_float_array` and `ensure_exclusive_byte_array`; the element type plays no role in either.
- ShapeDispatch (Cptr.ShapeDispatch): not defined for a null pointer or a boxed `Float`. The C dereferences a null pointer in its shape test. A boxed `Float` is a constructor with no object fields, so `lean_ctor_get(arr, 0)` reads the float's bits as a pointer. Neither outcome is a value the model can give, so these inputs lie outside the domain (`Runtime.ShapeTestable`).
- ComplexFloat64ArrayCptr (Cptr.ComplexFloat64ArrayCptr): not defined for a null pointer or a boxed `Float`, as for `ShapeDispatch`. For those inputs the C does not return NULL; it dereferences the null pointer or reads the float's bits as a field pointer.
- Float32ArrayCptr (Cptr.Float32ArrayCptr): not defined for a null pointer or a boxed `Float`, as for `ShapeDispatch`. For those inputs the C does not return NULL.
- Util.ComplexFloatArrayToByteArray: not defined for a null pointer or a boxed `Float`, for the same reasons. A boxed `Float` passes the `lean_is_ctor` test, so the C does not panic with "not a constructor". It either panics with "null float_array" (for +0.0) or reads through the float's bits.
- Util.ComplexFloatArrayToByteArray: assumes field 0's payload holds `8 * m_size` bytes, as it does when field 0 is a FloatArray. If it is a ByteArray the C code reads past the payload, which the model does not represent.
- Increments are `size_t` in the wrappers, so the glue's own loops (sum, const, scaladd, imax/imin, mul, div and the maps) never see a negative stride. The CBLAS kernels receive `(int)inc`, which is negative for increments from 2^31 to 2^32 - 1. Zero strides are allowed, and only `UpdateAt` and the value lemmas require a positive stride (or at most one element).
- Marshal.Invoke: every array is taken in its bare scalar-array shape, as an `array<real>`, here and in the LevelOne methods. In the C:
  - the complex and single-precision Level-1 standard wrappers go through the shape-dispatching util.h helpers (c/levelone.c:101, 623), so they also accept the constructor shape;
  - the Level-2 wrappers, the complex ones included, call `lean_float_array_cptr(A) + offA` with no shape test (c/leveltwo.c:37, 335-338), so a constructor-shaped complex array is misread there;
  - the extended Level-1 operations apply `lean_sarray_size` and `lean_is_exclusive` to X itself (c/levelone.c:421-423).

  The model does not capture this difference between the Level-1 and Level-2 wrappers. `Cptr` states the dispatch on its own.
- generate_complex_test_data.py and validate_complex_blas.py produce floating-point reference data and run tests; they are not part of this model.

## Findings

| source | as written | input that shows it | evidently intended | confidence | as-written member | corrected member |
|---|---|---|---|---|---|---|
| c/levelone.c:420-423 (also 488-490, 514-516) | the double-precision fast-path test `lean_sarray_size(X)*sizeof(double) == N` multiplies a byte count by 8, so it asks for 64 * elements == N | N = 3, X = [1,2,3] exclusive, Y = [4,5,6] shared, offsets 0, increments 1: the test compares 192 with 3, so Y is copied although X could be written in place; with in-range accesses the test holds only for N = 0 | `lean_sarray_size(X)/sizeof(double) == N`, the analogue of the single-precision test `lean_sarray_size(X)/4 == N`: the buffer holds exactly N elements | high on the arithmetic, not executed | LevelOne.FullVectorMissesDoubleFastPath | LevelOne.IntendedFastPathOnFullVectors |

The defect costs a copy of Y but never changes a result.
`LevelOne.AsWrittenImpliesIntended` shows that the test as written never
fires where the intended one would not. The contracts of `Axpby`, `Mul` and
`Div` show that the result is the same whichever branch runs. The methods
therefore keep the test as written, and the corrected test is stated and
proved beside it.
