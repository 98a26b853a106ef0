/**
 * The ownership guard and the array-header conversions of the glue's
 * utility file: `ensure_exclusive_*`, FloatArray <-> ByteArray and
 * ComplexFloatArray <-> ByteArray.
 */
module Util {
  import opened Runtime

  /**
   * `ensure_exclusive_byte_array` / `ensure_exclusive_float_array`: the
   * caller's handle `*X` is kept when the buffer is exclusive and is
   * otherwise replaced by a fresh copy with identical contents. The
   * original buffer is never written (there is no `modifies` clause).
   */
  method EnsureExclusive<T>(x: array<T>, exclusive: bool) returns (r: array<T>)
    ensures exclusive ==> r == x
    ensures !exclusive ==> fresh(r)
    ensures r[..] == x[..]
  {
    if exclusive {
      r := x;
    } else {
      r := new T[x.Length](i requires 0 <= i < x.Length reads x => x[i]);
    }
  }

  /** Header of a FloatArray reinterpreted as a ByteArray: counts in bytes, element size 1. */
  function FloatToByteHeader(h: Header): Header
  {
    Header(1, h.size * 8, h.capacity * 8)
  }

  /** Header of a ByteArray reinterpreted as a FloatArray: counts divided by 8 (truncating), element size 8. */
  function ByteToFloatHeader(h: Header): Header
  {
    Header(8, h.size / 8, h.capacity / 8)
  }

  /** The reinterpretation keeps the number of payload bytes the header covers. */
  lemma FloatToByteKeepsByteLength(h: Header)
    requires h.elemSize == 8
    ensures FloatToByteHeader(h).size * FloatToByteHeader(h).elemSize == h.size * h.elemSize
    ensures FloatToByteHeader(h).capacity * FloatToByteHeader(h).elemSize == h.capacity * h.elemSize
  {
  }

  /** Float -> byte -> float restores size and capacity exactly. */
  lemma FloatByteFloat(h: Header)
    requires h.elemSize == 8
    ensures ByteToFloatHeader(FloatToByteHeader(h)) == h
  {
  }

  /** Byte -> float -> byte restores the header exactly when both counts are multiples of 8. */
  lemma ByteFloatByte(h: Header)
    requires h.elemSize == 1
    ensures FloatToByteHeader(ByteToFloatHeader(h)) == h <==> h.size % 8 == 0 && h.capacity % 8 == 0
  {
  }

  /** Keeping whole 8-byte words of a byte string loses nothing exactly when its length is a multiple of 8. */
  lemma WholeWordsPrefix(s: seq<byte>)
    ensures 8 * (|s| / 8) <= |s|
    ensures s[..8 * (|s| / 8)] == s <==> |s| % 8 == 0
  {
    if |s| % 8 != 0 {
      assert |s[..8 * (|s| / 8)]| != |s|;
    }
  }

  /**
   * `leanblas_float_array_to_byte_array`: reuse the object when exclusive,
   * otherwise copy it; then rescale the counts to bytes and switch the
   * element size to 1. The payload bytes are not touched.
   */
  method FloatArrayToByteArray(a: ScalarArray) returns (r: ScalarArray)
    requires a.Valid() && a.elemSize == 8
    modifies a
    ensures r.Valid() && r.exclusive
    ensures old(a.exclusive) ==> r == a && r.bytes == old(a.bytes)
    ensures !old(a.exclusive) ==> fresh(r) && unchanged(a)
    ensures r.HeaderOf() == FloatToByteHeader(old(a.HeaderOf()))
    ensures r.Contents() == old(a.Contents())
  {
    if a.exclusive {
      r := a;
    } else {
      r := new ScalarArray.CopyOf(a);
    }
    r.size := r.size * 8;
    r.capacity := r.capacity * 8;
    r.elemSize := 1;
  }

  /**
   * `leanblas_byte_array_to_float_array`: reuse or copy, then divide the
   * counts by 8 (truncating) and switch the element size to 8. A trailing
   * partial word drops out of the contents.
   */
  method ByteArrayToFloatArray(a: ScalarArray) returns (r: ScalarArray)
    requires a.Valid() && a.elemSize == 1
    modifies a
    ensures r.Valid() && r.exclusive
    ensures old(a.exclusive) ==> r == a && r.bytes == old(a.bytes)
    ensures !old(a.exclusive) ==> fresh(r) && unchanged(a)
    ensures r.HeaderOf() == ByteToFloatHeader(old(a.HeaderOf()))
    ensures 8 * r.size <= old(a.size)
    ensures r.Contents() == old(a.Contents())[..8 * r.size]
  {
    if a.exclusive {
      r := a;
    } else {
      r := new ScalarArray.CopyOf(a);
    }
    r.size := r.size / 8;
    r.capacity := r.capacity / 8;
    r.elemSize := 8;
  }

  /** What `leanblas_complex_float_array_to_byte_array` demands of field 0: `8 * m_size` bytes can be read from it. */
  predicate FieldReadable(a: Obj)
    reads if a.Ctor? && |a.fields| > 0 && a.fields[0].Scalar? then {a.fields[0].arr} else {}
  {
    a.Ctor? ==>
      |a.fields| > 0 &&
      (a.fields[0].Null? ||
       (a.fields[0].Scalar? && 8 * a.fields[0].arr.size <= |a.fields[0].arr.bytes|))
  }

  /**
   * `leanblas_complex_float_array_to_byte_array`: panics unless the value
   * is a constructor with a non-null field 0; otherwise allocates a new
   * ByteArray of `8 * size(field 0)` bytes holding a copy of field 0's
   * payload. The argument is not modified.
   */
  method ComplexFloatArrayToByteArray(a: Obj) returns (r: Outcome<ScalarArray>)
    requires ShapeTestable(a) && FieldReadable(a)
    ensures !a.Ctor? ==> r == Panic("leanblas_complex_float_array_to_byte_array: not a constructor")
    ensures a.Ctor? && a.fields[0].Null? ==> r == Panic("leanblas_complex_float_array_to_byte_array: null float_array")
    ensures a.Ctor? && a.fields[0].Scalar? ==>
      var f := a.fields[0].arr;
      && r.Ok? && fresh(r.value) && r.value.Valid() && r.value.exclusive
      && r.value.HeaderOf() == Header(1, 8 * f.size, 8 * f.size)
      && r.value.Contents() == f.bytes[..8 * f.size]
  {
    if !a.Ctor? {
      return Panic("leanblas_complex_float_array_to_byte_array: not a constructor");
    }
    var field := a.fields[0];
    if field.Null? {
      return Panic("leanblas_complex_float_array_to_byte_array: null float_array");
    }
    var floatCount := field.arr.size;
    var byteSize := floatCount * 8;
    var out := new ScalarArray.Alloc(1, byteSize, byteSize, field.arr.bytes[..byteSize]);
    r := Ok(out);
  }

  /**
   * `leanblas_byte_array_to_complex_float_array`: the ByteArray -> FloatArray
   * reinterpretation, wrapped in a one-field constructor.
   */
  method ByteArrayToComplexFloatArray(a: ScalarArray) returns (r: Obj)
    requires a.Valid() && a.elemSize == 1
    modifies a
    ensures r.Ctor? && |r.fields| == 1 && r.fields[0].Scalar?
    ensures var f := r.fields[0].arr;
      && f.Valid() && f.exclusive
      && (old(a.exclusive) ==> f == a)
      && (!old(a.exclusive) ==> fresh(f) && unchanged(a))
      && f.HeaderOf() == ByteToFloatHeader(old(a.HeaderOf()))
      && f.Contents() == old(a.Contents())[..8 * f.size]
  {
    var f := ByteArrayToFloatArray(a);
    r := Ctor([Scalar(f)]);
  }

  /**
   * Byte -> complex -> byte reproduces the original bytes when the byte
   * length is a multiple of 8 (the capacity becomes the length).
   */
  method ByteComplexByte(a: ScalarArray) returns (b: ScalarArray)
    requires a.Valid() && a.elemSize == 1 && a.size % 8 == 0
    modifies a
    ensures b.Valid() && b.exclusive
    ensures b.HeaderOf() == Header(1, old(a.size), old(a.size))
    ensures b.Contents() == old(a.Contents())
  {
    var c := ByteArrayToComplexFloatArray(a);
    var out := ComplexFloatArrayToByteArray(c);
    b := out.value;
  }
}
