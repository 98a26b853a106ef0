/**
 * The non-standard Level-1 operations of the glue (const, sum, axpby,
 * scaladd, imax/imin, element-wise mul, div and maps) for double and single
 * precision. A Float64Array/Float32Array is modelled by its elements
 * (`array<real>`) and the exclusivity flag its reference count gave at
 * entry; its `lean_sarray_size` is the byte count, `ElemBytes * Length`.
 */
module LevelOne {
  import opened Runtime
  import opened Strided
  import Util

  function ElemBytes(p: RealPrec): nat
  {
    if p == D then 8 else 4
  }

  /** The libm and IEEE operations the glue calls; their numerics are not modelled. */
  datatype LibM = LibM(
    div: (real, real) -> real,
    fabs: real -> real,
    sqrt: real -> real,
    exp: real -> real,
    log: real -> real,
    sin: real -> real,
    cos: real -> real)

  datatype UnaryOp = Inv | Abs | Sqrt | Exp | Log | Sin | Cos

  // ----- update steps of the element loops -----

  /** `x = alpha*x + beta` (scaladd). */
  function Affine(alpha: real, beta: real): (nat, real) -> real
  {
    (i: nat, v: real) => alpha * v + beta
  }

  /** `x = alpha*x` (the kernel `cblas_?scal`). */
  function Scale(alpha: real): (nat, real) -> real
  {
    (i: nat, v: real) => alpha * v
  }

  /** `y = alpha*x + y` (the kernel `cblas_?axpy`), as a combination of (y, x). */
  function AxpyStep(alpha: real): (real, real) -> real
  {
    (y: real, x: real) => alpha * x + y
  }

  /** `out *= other`. */
  function Mult(): (real, real) -> real
  {
    (a: real, b: real) => a * b
  }

  /** `y = x / y`, as a combination of (y, x). */
  function DivInto(m: LibM): (real, real) -> real
  {
    (y: real, x: real) => m.div(x, y)
  }

  /** The element-wise maps inv, abs, sqrt, exp, log, sin, cos. */
  function UnaryStep(m: LibM, op: UnaryOp): (nat, real) -> real
  {
    match op
    case Inv => (i: nat, v: real) => m.div(1.0, v)
    case Abs => (i: nat, v: real) => m.fabs(v)
    case Sqrt => (i: nat, v: real) => m.sqrt(v)
    case Exp => (i: nat, v: real) => m.exp(v)
    case Log => (i: nat, v: real) => m.log(v)
    case Sin => (i: nat, v: real) => m.sin(v)
    case Cos => (i: nat, v: real) => m.cos(v)
  }

  // ----- the in-place loops -----

  /** `for i < n: x[off + i*inc] = g(i, x[off + i*inc])`. */
  method MapInPlace(x: array<real>, n: nat, off: nat, inc: nat, g: (nat, real) -> real)
    requires InRange(n, off, inc, x.Length)
    modifies x
    ensures x[..] == Update(old(x[..]), off, inc, n, g)
  {
    ghost var s0 := x[..];
    var i: nat := 0;
    while i < n
      invariant i <= n
      invariant InRange(i, off, inc, |s0|)
      invariant x[..] == Update(s0, off, inc, i, g)
    {
      var p := off + i * inc;
      assert p == Pos(off, inc, i);
      x[p] := g(i, x[p]);
      i := i + 1;
    }
  }

  /** `for i < n: out[offO + i*incO] = h(out[offO + i*incO], other[offT + i*incT])`. */
  method ZipInPlace(out: array<real>, other: array<real>, n: nat, offO: nat, incO: nat, offT: nat, incT: nat,
                    h: (real, real) -> real)
    requires out != other
    requires InRange(n, offO, incO, out.Length) && InRange(n, offT, incT, other.Length)
    modifies out
    ensures out[..] == Update(old(out[..]), offO, incO, n, Zip(h, other[..], offT, incT))
  {
    ghost var s0 := out[..];
    var i: nat := 0;
    while i < n
      invariant i <= n
      invariant InRange(i, offO, incO, |s0|)
      invariant out[..] == Update(s0, offO, incO, i, Zip(h, other[..], offT, incT))
    {
      var p := offO + i * incO;
      var q := offT + i * incT;
      assert p == Pos(offO, incO, i) && q == Pos(offT, incT, i);
      assert other[q] == At(other[..], offT, incT, i);
      out[p] := h(out[p], other[q]);
      i := i + 1;
    }
  }

  // ----- const and sum -----

  /** `leanblas_cblas_dconst` / `sconst`: a fresh exclusive vector of n copies of `a`. */
  method Const(n: nat, a: real) returns (r: array<real>)
    ensures fresh(r) && r.Length == n
    ensures forall i :: 0 <= i < n ==> r[i] == a
  {
    r := new real[n];
    var i := 0;
    while i < n
      invariant i <= n
      invariant forall j :: 0 <= j < i ==> r[j] == a
    {
      r[i] := a;
      i := i + 1;
    }
  }

  /** `leanblas_cblas_dsum` / `ssum`: the sum of the n logical elements, accumulated in order from 0. */
  method Sum(n: nat, x: array<real>, offX: nat, incX: nat) returns (sum: real)
    requires InRange(n, offX, incX, x.Length)
    ensures sum == StridedSum(x[..], offX, incX, n)
  {
    sum := 0.0;
    var i: nat := 0;
    while i < n
      invariant i <= n
      invariant sum == StridedSum(x[..], offX, incX, i)
    {
      assert Pos(offX, incX, i) < x.Length;
      sum := sum + x[offX + i * incX];
      i := i + 1;
    }
  }

  // ----- imax / imin -----

  /** Logical element k is the first one attaining the maximum of the n elements (the first one when n is 0). */
  ghost predicate FirstMax(s: seq<real>, off: nat, inc: nat, n: nat, k: nat)
  {
    && k < (if n == 0 then 1 else n)
    && (forall j: nat :: j < n ==> At(s, off, inc, j) <= At(s, off, inc, k))
    && (forall j: nat :: j < k ==> At(s, off, inc, j) < At(s, off, inc, k))
  }

  ghost predicate FirstMin(s: seq<real>, off: nat, inc: nat, n: nat, k: nat)
  {
    && k < (if n == 0 then 1 else n)
    && (forall j: nat :: j < n ==> At(s, off, inc, k) <= At(s, off, inc, j))
    && (forall j: nat :: j < k ==> At(s, off, inc, k) < At(s, off, inc, j))
  }

  /**
   * `leanblas_cblas_dimax_re` / `simax_re`: the buffer index `offX + k*incX`
   * (not k) of the first logical element with the largest value. `x[offX]`
   * is read even when n is 0.
   */
  method ImaxRe(n: nat, x: array<real>, offX: nat, incX: nat) returns (index: nat)
    requires offX < x.Length
    requires InRange(n, offX, incX, x.Length)
    ensures exists k: nat :: FirstMax(x[..], offX, incX, n, k) && index == Pos(offX, incX, k)
  {
    var max := x[offX];
    var maxIndex: nat := 0;
    var i: nat := 1;
    while i < n
      invariant 1 <= i <= (if n == 0 then 1 else n)
      invariant maxIndex < i
      invariant max == At(x[..], offX, incX, maxIndex)
      invariant forall j: nat :: j < i && j < n ==> At(x[..], offX, incX, j) <= max
      invariant forall j: nat :: j < maxIndex ==> At(x[..], offX, incX, j) < max
    {
      assert Pos(offX, incX, i) < x.Length;
      var v := x[offX + i * incX];
      assert v == At(x[..], offX, incX, i);
      if v > max {
        max := v;
        maxIndex := i;
      }
      i := i + 1;
    }
    index := offX + maxIndex * incX;
    assert FirstMax(x[..], offX, incX, n, maxIndex);
  }

  /** `leanblas_cblas_dimin_re` / `simin_re`: the buffer index of the first smallest logical element. */
  method IminRe(n: nat, x: array<real>, offX: nat, incX: nat) returns (index: nat)
    requires offX < x.Length
    requires InRange(n, offX, incX, x.Length)
    ensures exists k: nat :: FirstMin(x[..], offX, incX, n, k) && index == Pos(offX, incX, k)
  {
    var min := x[offX];
    var minIndex: nat := 0;
    var i: nat := 1;
    while i < n
      invariant 1 <= i <= (if n == 0 then 1 else n)
      invariant minIndex < i
      invariant min == At(x[..], offX, incX, minIndex)
      invariant forall j: nat :: j < i && j < n ==> min <= At(x[..], offX, incX, j)
      invariant forall j: nat :: j < minIndex ==> min < At(x[..], offX, incX, j)
    {
      assert Pos(offX, incX, i) < x.Length;
      var v := x[offX + i * incX];
      assert v == At(x[..], offX, incX, i);
      if v < min {
        min := v;
        minIndex := i;
      }
      i := i + 1;
    }
    index := offX + minIndex * incX;
    assert FirstMin(x[..], offX, incX, n, minIndex);
  }

  // ----- in-place maps -----

  /** `leanblas_cblas_dscaladd` / `sscaladd`: X made exclusive, then `x = alpha*x + beta` at each logical position. */
  method Scaladd(n: nat, alpha: real, x: array<real>, xExclusive: bool, offX: nat, incX: nat, beta: real)
    returns (r: array<real>)
    requires InRange(n, offX, incX, x.Length)
    modifies x
    ensures xExclusive ==> r == x
    ensures !xExclusive ==> fresh(r) && x[..] == old(x[..])
    ensures r[..] == Update(old(x[..]), offX, incX, n, Affine(alpha, beta))
  {
    r := Util.EnsureExclusive(x, xExclusive);
    MapInPlace(r, n, offX, incX, Affine(alpha, beta));
  }

  /** `leanblas_cblas_dinv`, `dabs`, `dsqrt`, `dexp`, `dlog`, `dsin`, `dcos` and their single-precision twins. */
  method Elementwise(op: UnaryOp, m: LibM, n: nat, x: array<real>, xExclusive: bool, offX: nat, incX: nat)
    returns (r: array<real>)
    requires InRange(n, offX, incX, x.Length)
    modifies x
    ensures xExclusive ==> r == x
    ensures !xExclusive ==> fresh(r) && x[..] == old(x[..])
    ensures r[..] == Update(old(x[..]), offX, incX, n, UnaryStep(m, op))
  {
    r := Util.EnsureExclusive(x, xExclusive);
    MapInPlace(r, n, offX, incX, UnaryStep(m, op));
  }

  // ----- the aliasing optimiser -----

  /** `lean_sarray_size` of the buffer: Float64Array and Float32Array are ByteArrays, so this counts bytes. */
  function ByteSize(p: RealPrec, len: nat): nat
  {
    ElemBytes(p) * len
  }

  /**
   * The size test as written: `lean_sarray_size(X)*sizeof(double) == N` for
   * double precision and `lean_sarray_size(X)/4 == N` for single precision.
   */
  predicate SizeTestAsWritten(p: RealPrec, len: nat, n: nat)
  {
    if p == D then ByteSize(p, len) * 8 == n
    else ByteSize(p, len) / 4 == n
  }

  /** The size test the comment "modify all elements" calls for: the buffer holds exactly n elements. */
  predicate SizeTestIntended(p: RealPrec, len: nat, n: nat)
  {
    ByteSize(p, len) / ElemBytes(p) == n
  }

  /** The condition under which axpby, mul and div write X in place (as written). */
  predicate FastPath(p: RealPrec, n: nat, xExclusive: bool, lenX: nat, offX: nat, incX: nat,
                     yExclusive: bool, lenY: nat, offY: nat, incY: nat)
  {
    && xExclusive && !yExclusive
    && SizeTestAsWritten(p, lenX, n) && offX == 0 && incX == 1
    && SizeTestAsWritten(p, lenY, n) && offY == 0 && incY == 1
  }

  /** The same condition with the intended size test. */
  predicate FastPathIntended(p: RealPrec, n: nat, xExclusive: bool, lenX: nat, offX: nat, incX: nat,
                             yExclusive: bool, lenY: nat, offY: nat, incY: nat)
  {
    && xExclusive && !yExclusive
    && SizeTestIntended(p, lenX, n) && offX == 0 && incX == 1
    && SizeTestIntended(p, lenY, n) && offY == 0 && incY == 1
  }

  /** Whenever the fast path fires on in-range vectors, both buffers are exactly the n logical elements. */
  lemma FastPathCoversWholeBuffers(p: RealPrec, n: nat, xExclusive: bool, lenX: nat, offX: nat, incX: nat,
                                   yExclusive: bool, lenY: nat, offY: nat, incY: nat)
    requires FastPath(p, n, xExclusive, lenX, offX, incX, yExclusive, lenY, offY, incY)
    requires InRange(n, offX, incX, lenX) && InRange(n, offY, incY, lenY)
    ensures lenX == n && lenY == n
    ensures p == D ==> n == 0
  {
    if n > 0 {
      assert Pos(offX, incX, n - 1) < lenX;
      assert Pos(offY, incY, n - 1) < lenY;
    }
  }

  /** The intended test holds exactly for a buffer of n elements; the single-precision test as written is that test. */
  lemma SizeTestIntendedIsFullCoverage(p: RealPrec, len: nat, n: nat)
    ensures SizeTestIntended(p, len, n) <==> len == n
    ensures SizeTestAsWritten(S, len, n) == SizeTestIntended(S, len, n)
  {
  }

  /** As written, the double-precision fast path never fires on a non-empty vector that the loops can read. */
  lemma DoubleFastPathOnlyWhenEmpty(n: nat, xExclusive: bool, lenX: nat, offX: nat, incX: nat,
                                    yExclusive: bool, lenY: nat, offY: nat, incY: nat)
    requires InRange(n, offX, incX, lenX) && InRange(n, offY, incY, lenY)
    ensures FastPath(D, n, xExclusive, lenX, offX, incX, yExclusive, lenY, offY, incY) ==> n == 0 && lenX == 0
  {
    if FastPath(D, n, xExclusive, lenX, offX, incX, yExclusive, lenY, offY, incY) {
      FastPathCoversWholeBuffers(D, n, xExclusive, lenX, offX, incX, yExclusive, lenY, offY, incY);
    }
  }

  /**
   * N = 3, X = [1,2,3] exclusive, Y = [4,5,6] shared, both contiguous: the
   * double-precision test as written sends the call down the copy-Y path,
   * the intended test and the single-precision test take the fast path.
   */
  lemma FullVectorMissesDoubleFastPath()
    ensures !FastPath(D, 3, true, 3, 0, 1, false, 3, 0, 1)
    ensures FastPathIntended(D, 3, true, 3, 0, 1, false, 3, 0, 1)
    ensures FastPath(S, 3, true, 3, 0, 1, false, 3, 0, 1)
  {
  }

  /** The intended fast path fires for every exclusive X and shared Y that are whole contiguous vectors of n elements. */
  lemma IntendedFastPathOnFullVectors(p: RealPrec, n: nat, xExclusive: bool, lenX: nat, offX: nat, incX: nat,
                                      yExclusive: bool, lenY: nat, offY: nat, incY: nat)
    ensures FastPathIntended(p, n, xExclusive, lenX, offX, incX, yExclusive, lenY, offY, incY) <==>
      (xExclusive && !yExclusive && lenX == n && lenY == n && offX == 0 && incX == 1 && offY == 0 && incY == 1)
  {
    SizeTestIntendedIsFullCoverage(p, lenX, n);
    SizeTestIntendedIsFullCoverage(p, lenY, n);
  }

  /**
   * The test as written is never looser than the intended one: whenever it
   * lets the fast path run on in-range vectors, the intended test does too,
   * so the defect costs a copy of Y but never a wrong result.
   */
  lemma AsWrittenImpliesIntended(p: RealPrec, n: nat, xExclusive: bool, lenX: nat, offX: nat, incX: nat,
                                 yExclusive: bool, lenY: nat, offY: nat, incY: nat)
    requires InRange(n, offX, incX, lenX) && InRange(n, offY, incY, lenY)
    requires FastPath(p, n, xExclusive, lenX, offX, incX, yExclusive, lenY, offY, incY)
    ensures FastPathIntended(p, n, xExclusive, lenX, offX, incX, yExclusive, lenY, offY, incY)
  {
    FastPathCoversWholeBuffers(p, n, xExclusive, lenX, offX, incX, yExclusive, lenY, offY, incY);
    IntendedFastPathOnFullVectors(p, n, xExclusive, lenX, offX, incX, yExclusive, lenY, offY, incY);
  }

  // ----- reference results: what the copy-Y path computes -----

  /**
   * Whether `cblas_?scal` writes at all: the reference kernel returns at
   * once when the increment it receives, `(int)inc`, is not positive.
   */
  predicate ScalWrites(inc: nat)
  {
    CInt(inc) > 0
  }

  /** axpby on the Y buffer: `cblas_dscal(beta, Y)` then `cblas_daxpy(alpha, X, Y)`. */
  function AxpbyRef(n: nat, alpha: real, xs: seq<real>, offX: nat, incX: nat,
                    beta: real, ys: seq<real>, offY: nat, incY: nat): seq<real>
    requires InRange(n, offY, incY, |ys|)
  {
    var scaled := if ScalWrites(incY) then Update(ys, offY, incY, n, Scale(beta)) else ys;
    Update(scaled, offY, incY, n, Zip(AxpyStep(alpha), xs, offX, incX))
  }

  /** mul on the Y buffer: `y *= x`. */
  function MulRef(n: nat, xs: seq<real>, offX: nat, incX: nat, ys: seq<real>, offY: nat, incY: nat): seq<real>
    requires InRange(n, offY, incY, |ys|)
  {
    Update(ys, offY, incY, n, Zip(Mult(), xs, offX, incX))
  }

  /** div on the Y buffer: `y = x / y`. */
  function DivRef(m: LibM, n: nat, xs: seq<real>, offX: nat, incX: nat, ys: seq<real>, offY: nat, incY: nat): seq<real>
    requires InRange(n, offY, incY, |ys|)
  {
    Update(ys, offY, incY, n, Zip(DivInto(m), xs, offX, incX))
  }

  /**
   * With distinct output positions, axpby stores `alpha*x_i + beta*y_i` at
   * output position i; when dscal does not write (a zero increment, or one
   * that `(int)` makes negative) it stores `alpha*x_i + y_i`.
   */
  lemma AxpbyRefAt(n: nat, alpha: real, xs: seq<real>, offX: nat, incX: nat,
                   beta: real, ys: seq<real>, offY: nat, incY: nat, i: nat)
    requires InRange(n, offX, incX, |xs|) && InRange(n, offY, incY, |ys|)
    requires Distinct(n, incY) && i < n
    ensures ScalWrites(incY) ==>
              AxpbyRef(n, alpha, xs, offX, incX, beta, ys, offY, incY)[Pos(offY, incY, i)] ==
              alpha * xs[Pos(offX, incX, i)] + beta * ys[Pos(offY, incY, i)]
    ensures !ScalWrites(incY) ==>
              AxpbyRef(n, alpha, xs, offX, incX, beta, ys, offY, incY)[Pos(offY, incY, i)] ==
              alpha * xs[Pos(offX, incX, i)] + ys[Pos(offY, incY, i)]
  {
    var p := Pos(offY, incY, i);
    var scaled := if ScalWrites(incY) then Update(ys, offY, incY, n, Scale(beta)) else ys;
    if ScalWrites(incY) {
      UpdateAt(ys, offY, incY, n, Scale(beta), i);
      assert scaled[p] == beta * ys[p];
    }
    var step := Zip(AxpyStep(alpha), xs, offX, incX);
    UpdateAt(scaled, offY, incY, n, step, i);
    assert At(xs, offX, incX, i) == xs[Pos(offX, incX, i)];
    assert step(i, scaled[p]) == alpha * xs[Pos(offX, incX, i)] + scaled[p];
  }

  /** With stride 0, daxpy adds every `alpha*x_i` into the one element of Y, in order. */
  lemma {:induction false} ZeroStrideAccumulates(n: nat, alpha: real, xs: seq<real>, offX: nat, incX: nat,
                                                 ys: seq<real>, offY: nat)
    requires InRange(n, offX, incX, |xs|) && offY < |ys|
    ensures InRange(n, offY, 0, |ys|)
    ensures Update(ys, offY, 0, n, Zip(AxpyStep(alpha), xs, offX, incX))[offY] ==
            ys[offY] + alpha * StridedSum(xs, offX, incX, n)
  {
    assert forall i: nat :: Pos(offY, 0, i) == offY;
    if n > 0 {
      assert InRange(n - 1, offX, incX, |xs|);
      ZeroStrideAccumulates(n - 1, alpha, xs, offX, incX, ys, offY);
      var step := Zip(AxpyStep(alpha), xs, offX, incX);
      var t := Update(ys, offY, 0, n - 1, step);
      assert Pos(offY, 0, n - 1) == offY;
      assert Update(ys, offY, 0, n, step) == t[offY := step(n - 1, t[offY])];
      assert At(xs, offX, incX, n - 1) == xs[Pos(offX, incX, n - 1)];
    }
  }

  /**
   * A zero increment for Y: dscal leaves Y alone, so beta has no effect, and
   * daxpy adds every `alpha*x_i` into the one element of Y.
   */
  lemma ZeroIncrementIgnoresBeta(n: nat, alpha: real, xs: seq<real>, offX: nat, incX: nat,
                                 beta1: real, beta2: real, ys: seq<real>, offY: nat)
    requires InRange(n, offX, incX, |xs|) && offY < |ys|
    ensures InRange(n, offY, 0, |ys|)
    ensures AxpbyRef(n, alpha, xs, offX, incX, beta1, ys, offY, 0) ==
            AxpbyRef(n, alpha, xs, offX, incX, beta2, ys, offY, 0)
    ensures AxpbyRef(n, alpha, xs, offX, incX, beta1, ys, offY, 0)[offY] ==
            ys[offY] + alpha * StridedSum(xs, offX, incX, n)
  {
    assert !ScalWrites(0);
    ZeroStrideAccumulates(n, alpha, xs, offX, incX, ys, offY);
  }

  /** axpby leaves every index of Y that is not an output position as it was. */
  lemma AxpbyRefFrame(n: nat, alpha: real, xs: seq<real>, offX: nat, incX: nat,
                      beta: real, ys: seq<real>, offY: nat, incY: nat, j: nat)
    requires InRange(n, offY, incY, |ys|)
    requires j < |ys| && !Visited(n, offY, incY, j)
    ensures AxpbyRef(n, alpha, xs, offX, incX, beta, ys, offY, incY)[j] == ys[j]
  {
    var scaled := if ScalWrites(incY) then Update(ys, offY, incY, n, Scale(beta)) else ys;
    UpdateFrame(ys, offY, incY, n, Scale(beta), j);
    UpdateFrame(scaled, offY, incY, n, Zip(AxpyStep(alpha), xs, offX, incX), j);
  }

  /** With distinct output positions, mul stores `x_i * y_i` and div stores `x_i / y_i` (X is the numerator). */
  lemma MulDivRefAt(m: LibM, n: nat, xs: seq<real>, offX: nat, incX: nat, ys: seq<real>, offY: nat, incY: nat, i: nat)
    requires InRange(n, offX, incX, |xs|) && InRange(n, offY, incY, |ys|)
    requires Distinct(n, incY) && i < n
    ensures MulRef(n, xs, offX, incX, ys, offY, incY)[Pos(offY, incY, i)] ==
            xs[Pos(offX, incX, i)] * ys[Pos(offY, incY, i)]
    ensures DivRef(m, n, xs, offX, incX, ys, offY, incY)[Pos(offY, incY, i)] ==
            m.div(xs[Pos(offX, incX, i)], ys[Pos(offY, incY, i)])
  {
    var p := Pos(offY, incY, i);
    assert At(xs, offX, incX, i) == xs[Pos(offX, incX, i)];
    var mul := Zip(Mult(), xs, offX, incX);
    UpdateAt(ys, offY, incY, n, mul, i);
    assert mul(i, ys[p]) == ys[p] * xs[Pos(offX, incX, i)];
    var div := Zip(DivInto(m), xs, offX, incX);
    UpdateAt(ys, offY, incY, n, div, i);
    assert div(i, ys[p]) == m.div(xs[Pos(offX, incX, i)], ys[p]);
  }

  /** Writing X with `h(x, y)` over whole contiguous vectors equals writing Y with `g(y, x)` when h and g agree. */
  lemma {:induction false} SwappedWriteAgrees(xs: seq<real>, ys: seq<real>, n: nat,
                                              h: (real, real) -> real, g: (real, real) -> real)
    requires |xs| == n && |ys| == n
    requires forall i :: 0 <= i < n ==> h(xs[i], ys[i]) == g(ys[i], xs[i])
    ensures InRange(n, 0, 1, n)
    ensures Update(xs, 0, 1, n, Zip(h, ys, 0, 1)) == Update(ys, 0, 1, n, Zip(g, xs, 0, 1))
  {
    var a := Update(xs, 0, 1, n, Zip(h, ys, 0, 1));
    var b := Update(ys, 0, 1, n, Zip(g, xs, 0, 1));
    forall i | 0 <= i < n
      ensures a[i] == b[i]
    {
      assert Pos(0, 1, i) == i;
      assert At(ys, 0, 1, i) == ys[i] && At(xs, 0, 1, i) == xs[i];
      UpdateAt(xs, 0, 1, n, Zip(h, ys, 0, 1), i);
      UpdateAt(ys, 0, 1, n, Zip(g, xs, 0, 1), i);
      assert a[i] == h(xs[i], ys[i]);
      assert b[i] == g(ys[i], xs[i]);
    }
  }

  /** The in-place-on-X axpby (`scal(alpha, X)`, then `axpy(beta, Y, X)`) computes the reference result. */
  lemma {:induction false} AxpbyFastPathAgrees(n: nat, alpha: real, xs: seq<real>, beta: real, ys: seq<real>)
    requires |xs| == n && |ys| == n
    ensures InRange(n, 0, 1, n)
    ensures Update(Update(xs, 0, 1, n, Scale(alpha)), 0, 1, n, Zip(AxpyStep(beta), ys, 0, 1)) ==
            AxpbyRef(n, alpha, xs, 0, 1, beta, ys, 0, 1)
  {
    var sx := Update(xs, 0, 1, n, Scale(alpha));
    var a := Update(sx, 0, 1, n, Zip(AxpyStep(beta), ys, 0, 1));
    var b := AxpbyRef(n, alpha, xs, 0, 1, beta, ys, 0, 1);
    forall i | 0 <= i < n
      ensures a[i] == b[i]
    {
      assert Pos(0, 1, i) == i;
      assert At(ys, 0, 1, i) == ys[i];
      UpdateAt(xs, 0, 1, n, Scale(alpha), i);
      assert sx[i] == alpha * xs[i];
      UpdateAt(sx, 0, 1, n, Zip(AxpyStep(beta), ys, 0, 1), i);
      assert a[i] == beta * ys[i] + sx[i];
      AxpbyRefAt(n, alpha, xs, 0, 1, beta, ys, 0, 1, i);
    }
  }

  /**
   * `leanblas_cblas_daxpby` / `saxpby`. Whichever branch runs, the result
   * holds the reference values; the fast path writes only X and returns it,
   * the other path writes only the (exclusive) Y and returns it.
   */
  method Axpby(p: RealPrec, n: nat, alpha: real, x: array<real>, xExclusive: bool, offX: nat, incX: nat,
               beta: real, y: array<real>, yExclusive: bool, offY: nat, incY: nat) returns (r: array<real>)
    requires InRange(n, offX, incX, x.Length) && InRange(n, offY, incY, y.Length)
    requires x == y ==> !xExclusive && !yExclusive
    modifies x, y
    ensures r == x <==> FastPath(p, n, xExclusive, x.Length, offX, incX, yExclusive, y.Length, offY, incY)
    ensures r[..] == AxpbyRef(n, alpha, old(x[..]), offX, incX, beta, old(y[..]), offY, incY)
    ensures r == x ==> y[..] == old(y[..])
    ensures r != x ==> x[..] == old(x[..])
    ensures r != x && yExclusive ==> r == y
    ensures r != x && !yExclusive ==> fresh(r) && y[..] == old(y[..])
  {
    if xExclusive && !yExclusive &&
       SizeTestAsWritten(p, x.Length, n) && offX == 0 && incX == 1 &&
       SizeTestAsWritten(p, y.Length, n) && offY == 0 && incY == 1 {
      FastPathCoversWholeBuffers(p, n, xExclusive, x.Length, offX, incX, yExclusive, y.Length, offY, incY);
      MapInPlace(x, n, offX, incX, Scale(alpha));
      ZipInPlace(x, y, n, offX, incX, offY, incY, AxpyStep(beta));
      AxpbyFastPathAgrees(n, alpha, old(x[..]), beta, old(y[..]));
      r := x;
    } else {
      r := Util.EnsureExclusive(y, yExclusive);
      if ScalWrites(incY) {
        MapInPlace(r, n, offY, incY, Scale(beta));
      }
      ZipInPlace(r, x, n, offY, incY, offX, incX, AxpyStep(alpha));
    }
  }

  /** `leanblas_cblas_dmul` / `smul`: fast path `x *= y`, otherwise `y *= x` on an exclusive Y. */
  method Mul(p: RealPrec, n: nat, x: array<real>, xExclusive: bool, offX: nat, incX: nat,
             y: array<real>, yExclusive: bool, offY: nat, incY: nat) returns (r: array<real>)
    requires InRange(n, offX, incX, x.Length) && InRange(n, offY, incY, y.Length)
    requires x == y ==> !xExclusive && !yExclusive
    modifies x, y
    ensures r == x <==> FastPath(p, n, xExclusive, x.Length, offX, incX, yExclusive, y.Length, offY, incY)
    ensures r[..] == MulRef(n, old(x[..]), offX, incX, old(y[..]), offY, incY)
    ensures r == x ==> y[..] == old(y[..])
    ensures r != x ==> x[..] == old(x[..])
    ensures r != x && yExclusive ==> r == y
    ensures r != x && !yExclusive ==> fresh(r) && y[..] == old(y[..])
  {
    if xExclusive && !yExclusive &&
       SizeTestAsWritten(p, x.Length, n) && offX == 0 && incX == 1 &&
       SizeTestAsWritten(p, y.Length, n) && offY == 0 && incY == 1 {
      FastPathCoversWholeBuffers(p, n, xExclusive, x.Length, offX, incX, yExclusive, y.Length, offY, incY);
      ZipInPlace(x, y, n, offX, incX, offY, incY, Mult());
      SwappedWriteAgrees(old(x[..]), old(y[..]), n, Mult(), Mult());
      r := x;
    } else {
      r := Util.EnsureExclusive(y, yExclusive);
      ZipInPlace(r, x, n, offY, incY, offX, incX, Mult());
    }
  }

  /** `leanblas_cblas_ddiv` / `sdiv`: fast path `x /= y`, otherwise `y = x / y` on an exclusive Y. */
  method Div(p: RealPrec, m: LibM, n: nat, x: array<real>, xExclusive: bool, offX: nat, incX: nat,
             y: array<real>, yExclusive: bool, offY: nat, incY: nat) returns (r: array<real>)
    requires InRange(n, offX, incX, x.Length) && InRange(n, offY, incY, y.Length)
    requires x == y ==> !xExclusive && !yExclusive
    modifies x, y
    ensures r == x <==> FastPath(p, n, xExclusive, x.Length, offX, incX, yExclusive, y.Length, offY, incY)
    ensures r[..] == DivRef(m, n, old(x[..]), offX, incX, old(y[..]), offY, incY)
    ensures r == x ==> y[..] == old(y[..])
    ensures r != x ==> x[..] == old(x[..])
    ensures r != x && yExclusive ==> r == y
    ensures r != x && !yExclusive ==> fresh(r) && y[..] == old(y[..])
  {
    if xExclusive && !yExclusive &&
       SizeTestAsWritten(p, x.Length, n) && offX == 0 && incX == 1 &&
       SizeTestAsWritten(p, y.Length, n) && offY == 0 && incY == 1 {
      FastPathCoversWholeBuffers(p, n, xExclusive, x.Length, offX, incX, yExclusive, y.Length, offY, incY);
      ZipInPlace(x, y, n, offX, incX, offY, incY, m.div);
      SwappedWriteAgrees(old(x[..]), old(y[..]), n, m.div, DivInto(m));
      r := x;
    } else {
      r := Util.EnsureExclusive(y, yExclusive);
      ZipInPlace(r, x, n, offY, incY, offX, incX, DivInto(m));
    }
  }
}
