/**
 * The marshalling contract of the wrappers around standard CBLAS routines:
 * the Level-1 wrappers of levelone.c (dot, nrm2, asum, i?amax, swap, copy,
 * axpy, scal, rot and the complex z-variants) and every Level-2 wrapper of
 * leveltwo.c. A wrapper converts its tags, casts its sizes to `int`, unboxes
 * its scalars, computes a data pointer plus offset for each array, makes its
 * output buffers exclusive, calls the kernel and returns the outputs. The
 * kernel itself is a parameter: a function giving the new contents of an
 * output buffer and the value of a reduction.
 */
module Marshal {
  import opened Runtime
  import opened Tags
  import Util

  /** The Level-1 routines; `Dscal` is `zdscal`, `Nrm2`/`Asum` with Z are `dznrm2`/`dzasum`. */
  datatype Op1 = Dot | Dotc | Dotu | Nrm2 | Asum | Iamax | Swap | Copy | Axpy | Scal | Dscal | Rot

  datatype Op2 =
    | Gemv | Gbmv | Hemv
    | Trmv | Tbmv | Tpmv | Trsv | Tbsv | Tpsv
    | Ger | Gerc | Geru | Syr | Syr2 | Her | Her2

  datatype Routine = L1(op1: Op1, p: Prec) | L2(op2: Op2, p: Prec)

  /** The three array arguments a wrapper can take. */
  datatype Role = A | X | Y

  /** The wrappers that the two C files export. */
  predicate Exported(r: Routine)
  {
    match r
    case L1(op, p) =>
      if p == Z then op != Rot
      else op !in {Dotc, Dotu, Dscal}
    case L2(op, p) =>
      if p == D then op !in {Hemv, Gerc, Geru, Her, Her2}
      else if p == Z then op in {Gemv, Hemv, Trmv, Trsv, Gerc, Geru, Her, Her2}
      else false
  }

  predicate IsMatVec(op: Op2) { op in {Gemv, Gbmv, Hemv} }
  predicate IsTriangular(op: Op2) { op in {Trmv, Tbmv, Tpmv, Trsv, Tbsv, Tpsv} }
  predicate IsRankUpdate(op: Op2) { op in {Ger, Gerc, Geru, Syr, Syr2, Her, Her2} }

  /** The arrays a wrapper passes to its kernel. */
  function Uses(r: Routine): set<Role>
  {
    match r
    case L1(op, _) =>
      if op in {Nrm2, Asum, Iamax, Scal, Dscal} then {X} else {X, Y}
    case L2(op, _) =>
      if IsTriangular(op) || op in {Syr, Her} then {A, X} else {A, X, Y}
  }

  /** The arrays a wrapper makes exclusive, lets the kernel write, and returns. */
  function Outputs(r: Routine): (outs: set<Role>)
    ensures outs <= Uses(r)
    ensures r.L2? ==> |outs| == 1
  {
    match r
    case L1(op, _) =>
      if op in {Swap, Rot} then {X, Y}
      else if op in {Copy, Axpy} then {Y}
      else if op in {Scal, Dscal} then {X}
      else {}
    case L2(op, _) =>
      if IsMatVec(op) then {Y}
      else if IsTriangular(op) then {X}
      else {A}
  }

  // ----- scalar arguments -----

  /** A coefficient as the kernel receives it. */
  datatype Coef =
    | Re(v: real)
    | Cx(re: real, im: real)
    /** A complex value split by `leanblas_complexfloat_parts`, which is not part of this model. */
    | Parts(boxed: Obj)

  /** A Lean `Complex Float`: a constructor whose fields 0 and 1 are boxed floats. */
  predicate ComplexBox(o: Obj)
  {
    o.Ctor? && |o.fields| >= 2 && o.fields[0].BoxedFloat? && o.fields[1].BoxedFloat?
  }

  /** `lean_unbox_float(lean_ctor_get(o, 0))` and `... 1)`. */
  function Unbox(o: Obj): (c: Coef)
    requires ComplexBox(o)
    ensures c.Cx? && c.re == o.fields[0].val && c.im == o.fields[1].val
  {
    Cx(o.fields[0].val, o.fields[1].val)
  }

  /** The Level-2 complex routines that unbox a complex alpha (zher takes a real one). */
  predicate UnboxesAlpha(r: Routine)
  {
    r.L2? && r.p == Z && r.op2 != Her && !IsTriangular(r.op2)
  }

  predicate UnboxesBeta(r: Routine)
  {
    r.L2? && r.p == Z && IsMatVec(r.op2)
  }

  /** The arguments of one wrapper call, as they arrive from Lean. */
  datatype Request = Request(
    routine: Routine,
    order: uint8, uplo: uint8, trans: uint8, diag: uint8,
    m: nat, n: nat, kl: nat, ku: nat, k: nat,
    alpha: real, beta: real, alphaZ: Obj, betaZ: Obj, c: real, s: real,
    offA: nat, lda: nat, offX: nat, incX: nat, offY: nat, incY: nat)

  /** What a call must satisfy: an exported wrapper, and complex scalars that are boxed pairs where they are unboxed. */
  predicate WellFormed(req: Request)
  {
    && Exported(req.routine)
    && (UnboxesAlpha(req.routine) ==> ComplexBox(req.alphaZ))
    && (UnboxesBeta(req.routine) ==> ComplexBox(req.betaZ))
  }

  // ----- the kernel call -----

  /** A data pointer passed to the kernel: base plus `offset` scalars, with its `int` stride (lda or inc) if it has one. */
  datatype Operand = Operand(offset: nat, stride: Option<int>)

  /** The arguments of the kernel call. */
  datatype Call = Call(
    routine: Routine,
    order: Option<Order>, uplo: Option<Uplo>, trans: Option<Transpose>, diag: Option<Diag>,
    dims: seq<int>,
    alpha: Option<Coef>, beta: Option<Coef>, rot: Option<(real, real)>,
    a: Option<Operand>, x: Option<Operand>, y: Option<Operand>)

  predicate PassesTrans(r: Routine) { r.L2? && (r.op2 in {Gemv, Gbmv} || IsTriangular(r.op2)) }
  predicate PassesUplo(r: Routine) { r.L2? && (IsTriangular(r.op2) || r.op2 in {Hemv, Syr, Syr2, Her, Her2}) }
  predicate PassesDiag(r: Routine) { r.L2? && IsTriangular(r.op2) }

  /** Vector offsets are counted in scalars: complex Level-1 wrappers pass `2*off`, all others `off`. */
  function OffsetScale(r: Routine): nat
  {
    if r.L1? && r.p == Z then 2 else 1
  }

  function Dims(req: Request): seq<int>
  {
    match req.routine
    case L1(_, _) => [CInt(req.n)]
    case L2(op, _) =>
      if op in {Gemv, Ger, Gerc, Geru} then [CInt(req.m), CInt(req.n)]
      else if op == Gbmv then [CInt(req.m), CInt(req.n), CInt(req.kl), CInt(req.ku)]
      else if op in {Tbmv, Tbsv} then [CInt(req.n), CInt(req.k)]
      else [CInt(req.n)]
  }

  function AlphaOf(req: Request): Option<Coef>
    requires WellFormed(req)
  {
    var r := req.routine;
    match r
    case L1(op, p) =>
      if op in {Axpy, Scal} then Some(if p == Z then Parts(req.alphaZ) else Re(req.alpha))
      else if op == Dscal then Some(Re(req.alpha))
      else None
    case L2(op, p) =>
      if IsTriangular(op) then None
      else if UnboxesAlpha(r) then Some(Unbox(req.alphaZ))
      else Some(Re(req.alpha))
  }

  function BetaOf(req: Request): Option<Coef>
    requires WellFormed(req)
  {
    var r := req.routine;
    if r.L2? && IsMatVec(r.op2) then
      Some(if UnboxesBeta(r) then Unbox(req.betaZ) else Re(req.beta))
    else None
  }

  /** The matrix pointer: dtpsv passes the bare base, dtpmv adds offA without lda, the others add offA and pass lda. */
  function OperandA(req: Request): Option<Operand>
  {
    match req.routine
    case L1(_, _) => None
    case L2(op, _) =>
      if op == Tpsv then Some(Operand(0, None))
      else if op == Tpmv then Some(Operand(req.offA, None))
      else Some(Operand(req.offA, Some(CInt(req.lda))))
  }

  function VectorOperand(req: Request, role: Role, off: nat, inc: nat): Option<Operand>
  {
    if role in Uses(req.routine) then Some(Operand(OffsetScale(req.routine) * off, Some(CInt(inc)))) else None
  }

  /**
   * The CBLAS routine a wrapper calls: `zdot` calls `cblas_zdotc_sub` like
   * `zdotc` does; every other wrapper calls its namesake.
   */
  function KernelRoutine(r: Routine): (k: Routine)
    ensures k.p == r.p && Uses(k) == Uses(r) && Outputs(k) == Outputs(r)
    ensures Exported(r) ==> Exported(k)
    ensures r != L1(Dot, Z) ==> k == r
  {
    if r == L1(Dot, Z) then L1(Dotc, Z) else r
  }

  /** The argument list the wrapper builds for its kernel. */
  function Marshal(req: Request): (call: Call)
    requires WellFormed(req)
    ensures call.routine == KernelRoutine(req.routine)
    ensures call.order.Some? ==> call.order.value == CblasOrder(req.order)
    ensures call.uplo.Some? ==> call.uplo.value == CblasUplo(req.uplo)
    ensures call.trans.Some? ==> call.trans.value == CblasTranspose(req.trans)
    ensures call.diag.Some? ==> call.diag.value == CblasDiag(req.diag)
    ensures call.order.Some? <==> req.routine.L2?
  {
    var r := req.routine;
    Call(
      KernelRoutine(r),
      if r.L2? then Some(CblasOrder(req.order)) else None,
      if PassesUplo(r) then Some(CblasUplo(req.uplo)) else None,
      if PassesTrans(r) then Some(CblasTranspose(req.trans)) else None,
      if PassesDiag(r) then Some(CblasDiag(req.diag)) else None,
      Dims(req),
      AlphaOf(req), BetaOf(req),
      if r == L1(Rot, D) || r == L1(Rot, S) then Some((req.c, req.s)) else None,
      OperandA(req),
      VectorOperand(req, X, req.offX, req.incX),
      VectorOperand(req, Y, req.offY, req.incY))
  }

  // ----- properties of the marshalling -----

  /** The kernel receives a pointer for exactly the arrays the wrapper uses, and writes only among them. */
  lemma OperandsFollowRoles(req: Request)
    requires WellFormed(req)
    ensures Marshal(req).a.Some? <==> A in Uses(req.routine)
    ensures Marshal(req).x.Some? <==> X in Uses(req.routine)
    ensures Marshal(req).y.Some? <==> Y in Uses(req.routine)
    ensures Outputs(req.routine) <= Uses(req.routine)
  {
    assert OperandA(req).Some? <==> req.routine.L2?;
    assert X in Uses(req.routine);
  }

  /** The tags reach the kernel only through the util.c maps: tags that map alike give the same call. */
  lemma TagsOnlyThroughMapping(r1: Request, r2: Request)
    requires WellFormed(r1)
    requires r2 == r1.(order := r2.order, uplo := r2.uplo, trans := r2.trans, diag := r2.diag)
    requires CblasOrder(r1.order) == CblasOrder(r2.order) && CblasUplo(r1.uplo) == CblasUplo(r2.uplo)
    requires CblasTranspose(r1.trans) == CblasTranspose(r2.trans) && CblasDiag(r1.diag) == CblasDiag(r2.diag)
    ensures WellFormed(r2) && Marshal(r1) == Marshal(r2)
  {
  }

  /**
   * An out-of-range tag is not rejected: the call is the one its default tag
   * gives. Order, uplo and diag have two values, transpose has three.
   */
  lemma {:induction false} UnknownTagsActAsDefaults(req: Request, t: uint8)
    requires WellFormed(req)
    ensures t >= 2 ==> Marshal(req.(order := t)) == Marshal(req.(order := 1))
    ensures t >= 2 ==> Marshal(req.(uplo := t)) == Marshal(req.(uplo := 0))
    ensures t >= 3 ==> Marshal(req.(trans := t)) == Marshal(req.(trans := 0))
    ensures t >= 2 ==> Marshal(req.(diag := t)) == Marshal(req.(diag := 0))
  {
    OutOfRangeTagsFallBack(t);
    if t >= 2 {
      TagsOnlyThroughMapping(req.(order := t), req.(order := 1));
      TagsOnlyThroughMapping(req.(uplo := t), req.(uplo := 0));
      TagsOnlyThroughMapping(req.(diag := t), req.(diag := 0));
    }
    if t >= 3 {
      TagsOnlyThroughMapping(req.(trans := t), req.(trans := 0));
    }
  }

  /** `zdot` and `zdotc` are the same wrapper: equal arguments give equal kernel calls, the conjugated dot product. */
  lemma ZdotIsZdotc(req: Request)
    requires WellFormed(req) && req.routine == L1(Dot, Z)
    ensures WellFormed(req.(routine := L1(Dotc, Z)))
    ensures Marshal(req) == Marshal(req.(routine := L1(Dotc, Z)))
    ensures Marshal(req).routine == L1(Dotc, Z)
  {
  }

  /** dtpsv ignores offA altogether, while dtpmv passes it on: two offsets give two different calls. */
  lemma PackedOffsetHandling(req: Request, offA: nat)
    requires WellFormed(req) && offA != req.offA
    ensures req.routine == L2(Tpsv, D) ==> Marshal(req.(offA := offA)) == Marshal(req)
    ensures req.routine == L2(Tpsv, D) ==> Marshal(req).a == Some(Operand(0, None))
    ensures req.routine == L2(Tpmv, D) ==> Marshal(req.(offA := offA)) != Marshal(req)
  {
    if req.routine == L2(Tpmv, D) {
      assert Marshal(req.(offA := offA)).a.value.offset == offA;
    }
  }

  /**
   * A complex vector offset `off` reaches a Level-1 kernel as `2*off` doubles
   * (whole complex elements) but a Level-2 kernel as `off` doubles.
   */
  lemma ComplexOffsetUnits(req: Request)
    requires WellFormed(req) && req.routine.p == Z
    ensures req.routine.L1? ==> Marshal(req).x == Some(Operand(2 * req.offX, Some(CInt(req.incX))))
    ensures req.routine.L2? ==> Marshal(req).x == Some(Operand(req.offX, Some(CInt(req.incX))))
    ensures req.routine.L2? ==> Marshal(req).a.Some? && Marshal(req).a.value.offset == req.offA
  {
    assert X in Uses(req.routine);
    if req.routine.L2? {
      assert req.routine.op2 !in {Tpsv, Tpmv};
    }
  }

  /** Complex Level-2 scalars are unboxed from constructor fields 0 and 1; zher's alpha is a plain real. */
  lemma ComplexScalarsUnboxed(req: Request)
    requires WellFormed(req) && req.routine.L2? && req.routine.p == Z
    ensures req.routine.op2 == Her ==> Marshal(req).alpha == Some(Re(req.alpha))
    ensures UnboxesAlpha(req.routine) ==>
      Marshal(req).alpha == Some(Cx(req.alphaZ.fields[0].val, req.alphaZ.fields[1].val))
    ensures UnboxesBeta(req.routine) ==>
      Marshal(req).beta == Some(Cx(req.betaZ.fields[0].val, req.betaZ.fields[1].val))
  {
  }

  // ----- running a wrapper -----

  /**
   * The kernel: the new value at index j of an output buffer, and the value
   * a reduction returns, each a function of the call and of the contents of
   * the three buffers as the kernel finds them.
   */
  datatype Kernel = Kernel(
    write: (Call, Role, nat, seq<real>, seq<real>, seq<real>) -> real,
    value: (Call, seq<real>, seq<real>, seq<real>) -> seq<real>)

  function Written(kernel: Kernel, call: Call, role: Role, len: nat,
                   a: seq<real>, x: seq<real>, y: seq<real>): (r: seq<real>)
    ensures |r| == len
  {
    seq(len, j requires 0 <= j < len => kernel.write(call, role, j, a, x, y))
  }

  /** The kernel writing its output buffer in place; nothing else is in its frame. */
  method RunKernel(kernel: Kernel, call: Call, role: Role, out: array<real>,
                   a: seq<real>, x: seq<real>, y: seq<real>)
    modifies out
    ensures out[..] == Written(kernel, call, role, out.Length, a, x, y)
  {
    forall j | 0 <= j < out.Length {
      out[j] := kernel.write(call, role, j, a, x, y);
    }
  }

  /** What a wrapper returns: a kernel value, one buffer, or the (X, Y) pair of swap and rot. */
  datatype Returned = Value(v: seq<real>) | Buffer(b: array<real>) | Pair(fst: array<real>, snd: array<real>)

  /**
   * One wrapper call. The buffer given for a role the routine does not use is
   * ignored. The same Lean object passed in two positions has a reference
   * count of at least two, so neither of those positions is exclusive.
   */
  method Invoke(req: Request, kernel: Kernel,
                a: array<real>, exA: bool, x: array<real>, exX: bool, y: array<real>, exY: bool)
    returns (res: Returned)
    requires WellFormed(req)
    requires a == x ==> !exA && !exX
    requires a == y ==> !exA && !exY
    requires x == y ==> !exX && !exY
    modifies a, x, y
    ensures Outputs(req.routine) == {} ==>
              res == Value(kernel.value(Marshal(req), old(a[..]), old(x[..]), old(y[..])))
    ensures Outputs(req.routine) == {A} ==>
              && res.Buffer? && (exA ==> res.b == a) && (!exA ==> fresh(res.b))
              && res.b[..] == Written(kernel, Marshal(req), A, a.Length, old(a[..]), old(x[..]), old(y[..]))
    ensures Outputs(req.routine) == {X} ==>
              && res.Buffer? && (exX ==> res.b == x) && (!exX ==> fresh(res.b))
              && res.b[..] == Written(kernel, Marshal(req), X, x.Length, old(a[..]), old(x[..]), old(y[..]))
    ensures Outputs(req.routine) == {Y} ==>
              && res.Buffer? && (exY ==> res.b == y) && (!exY ==> fresh(res.b))
              && res.b[..] == Written(kernel, Marshal(req), Y, y.Length, old(a[..]), old(x[..]), old(y[..]))
    ensures Outputs(req.routine) == {X, Y} ==>
              && res.Pair?
              && (exX ==> res.fst == x) && (!exX ==> fresh(res.fst))
              && (exY ==> res.snd == y) && (!exY ==> fresh(res.snd))
              && res.fst[..] == Written(kernel, Marshal(req), X, x.Length, old(a[..]), old(x[..]), old(y[..]))
              && res.snd[..] == Written(kernel, Marshal(req), Y, y.Length, old(a[..]), old(x[..]), old(y[..]))
    ensures !(exA && A in Outputs(req.routine)) ==> a[..] == old(a[..])
    ensures !(exX && X in Outputs(req.routine)) ==> x[..] == old(x[..])
    ensures !(exY && Y in Outputs(req.routine)) ==> y[..] == old(y[..])
  {
    var call := Marshal(req);
    var outs := Outputs(req.routine);
    var sa, sx, sy := a[..], x[..], y[..];
    if outs == {} {
      res := Value(kernel.value(call, sa, sx, sy));
    } else if outs == {A} {
      var ra := Util.EnsureExclusive(a, exA);
      RunKernel(kernel, call, A, ra, sa, sx, sy);
      res := Buffer(ra);
    } else if outs == {X} {
      var rx := Util.EnsureExclusive(x, exX);
      RunKernel(kernel, call, X, rx, sa, sx, sy);
      res := Buffer(rx);
    } else if outs == {Y} {
      var ry := Util.EnsureExclusive(y, exY);
      RunKernel(kernel, call, Y, ry, sa, sx, sy);
      res := Buffer(ry);
    } else {
      assert outs == {X, Y};
      var rx := Util.EnsureExclusive(x, exX);
      var ry := Util.EnsureExclusive(y, exY);
      RunKernel(kernel, call, X, rx, sa, sx, sy);
      RunKernel(kernel, call, Y, ry, sa, sx, sy);
      res := Pair(rx, ry);
    }
  }
}
