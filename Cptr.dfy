/**
 * Data-pointer extraction for complex and single-precision arrays. A Lean
 * structure with a single ByteArray field may reach C either as the
 * constructor object or, flattened, as the ByteArray itself. The shape-testing
 * helpers of util.h accept both; the helpers of complex_util.h accept only
 * the constructor. None of them allocates, copies or writes: they are
 * functions of the value and read no heap state.
 */
module Cptr {
  import opened Runtime

  /** A C data pointer: the payload of `target`, read as elements of `elemBytes` bytes (8: `double*`, 4: `float*`). */
  datatype Ptr = Ptr(target: ScalarArray, elemBytes: nat)

  /** Field 0 of a constructor exists and is a scalar array, which `lean_sarray_cptr` then needs. */
  predicate ArrayInField0(o: Obj)
  {
    o.Ctor? && |o.fields| > 0 && o.fields[0].Scalar?
  }

  /** The scalar array a complex or Float32 array value stands for, whichever of its two shapes arrived. */
  function Payload(o: Obj): Option<ScalarArray>
  {
    if o.Scalar? then Some(o.arr)
    else if ArrayInField0(o) then Some(o.fields[0].arr)
    else None
  }

  /** Shared shape dispatch of the two util.h helpers: the pointer is to `elemBytes`-wide elements. */
  function ShapeDispatch(o: Obj, elemBytes: nat): (r: Option<Ptr>)
    requires ShapeTestable(o) && (o.Ctor? ==> ArrayInField0(o))
    ensures r.Some? <==> o.Scalar? || o.Ctor?
    ensures r.Some? ==> Payload(o) == Some(r.value.target) && r.value.elemBytes == elemBytes
  {
    if o.Scalar? then Some(Ptr(o.arr, elemBytes))
    else if o.Ctor? then Some(Ptr(o.fields[0].arr, elemBytes))
    else None
  }

  /** util.h `lean_complex_float64_array_cptr`: bare array, constructor, or NULL for any other object. */
  function ComplexFloat64ArrayCptr(o: Obj): (r: Option<Ptr>)
    requires ShapeTestable(o) && (o.Ctor? ==> ArrayInField0(o))
    ensures r.Some? <==> o.Scalar? || o.Ctor?
    ensures r.Some? ==> Payload(o) == Some(r.value.target) && r.value.elemBytes == 8
  {
    ShapeDispatch(o, 8)
  }

  /** util.h `lean_float32_array_cptr`: the same three-way dispatch, read as `float*`. */
  function Float32ArrayCptr(o: Obj): (r: Option<Ptr>)
    requires ShapeTestable(o) && (o.Ctor? ==> ArrayInField0(o))
    ensures r.Some? <==> o.Scalar? || o.Ctor?
    ensures r.Some? ==> Payload(o) == Some(r.value.target) && r.value.elemBytes == 4
  {
    ShapeDispatch(o, 4)
  }

  /** complex_util.h `lean_complex_float64_array_cptr`: reads field 0 with no shape test. */
  function CtorComplexFloat64ArrayCptr(o: Obj): (r: Ptr)
    requires ArrayInField0(o)
    ensures Payload(o) == Some(r.target) && r.elemBytes == 8
  {
    Ptr(o.fields[0].arr, 8)
  }

  /** complex_util.h `lean_complex_float32_array_cptr`: reads field 0 with no shape test, as `float*`. */
  function CtorComplexFloat32ArrayCptr(o: Obj): (r: Ptr)
    requires ArrayInField0(o)
    ensures Payload(o) == Some(r.target) && r.elemBytes == 4
  {
    Ptr(o.fields[0].arr, 4)
  }

  /**
   * The single-field flattening is invisible to the util.h helpers: the
   * bare array and the constructor that wraps it give the same pointer.
   */
  lemma FlatteningTransparent(a: ScalarArray, rest: seq<Obj>)
    ensures ComplexFloat64ArrayCptr(Scalar(a)) == ComplexFloat64ArrayCptr(Ctor([Scalar(a)] + rest))
    ensures Float32ArrayCptr(Scalar(a)) == Float32ArrayCptr(Ctor([Scalar(a)] + rest))
  {
    assert ([Scalar(a)] + rest)[0] == Scalar(a);
  }

  /** On constructor input the two headers' `lean_complex_float64_array_cptr` agree, and so do the Float32 readers. */
  lemma HeadersAgreeOnCtor(o: Obj)
    requires ArrayInField0(o)
    ensures ComplexFloat64ArrayCptr(o) == Some(CtorComplexFloat64ArrayCptr(o))
    ensures Float32ArrayCptr(o) == Some(CtorComplexFloat32ArrayCptr(o))
  {
  }

  /** The Float32 helper differs from the complex one only in the element width. */
  lemma Float32OnlyReinterprets(o: Obj)
    requires ShapeTestable(o) && (o.Ctor? ==> ArrayInField0(o))
    ensures Float32ArrayCptr(o).None? <==> ComplexFloat64ArrayCptr(o).None?
    ensures Float32ArrayCptr(o).Some? ==>
      Float32ArrayCptr(o).value == Ptr(ComplexFloat64ArrayCptr(o).value.target, 4)
  {
  }
}
