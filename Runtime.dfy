/**
 * The slice of the Lean 4 runtime that the BLAS glue relies on: small integer
 * types, the scalar-array object (`lean_sarray_object`) with its header, and
 * the run-time shapes a boxed Lean value can have at the FFI boundary.
 */
module Runtime {

  /** The C `uint8_t` in which Lean passes an enumeration tag. */
  newtype uint8 = x: int | 0 <= x < 256

  type byte = bv8

  datatype Option<+T> = None | Some(value: T)

  /** A call that either returns a value or stops the process with `lean_internal_panic`. */
  datatype Outcome<+T> = Ok(value: T) | Panic(message: string)

  /** The scalar type of a BLAS routine: double, single, or double complex (the `d`, `s` and `z` prefixes). */
  datatype Prec = D | S | Z

  /** The real precisions, the only ones the non-standard Level-1 operations come in. */
  type RealPrec = p: Prec | p != Z witness D

  const TwoTo31: int := 0x8000_0000
  const TwoTo32: int := 0x1_0000_0000

  /**
   * `(int)n` for a `size_t` n, as the glue passes sizes and increments to
   * CBLAS: the low 32 bits read as two's complement (the conversion the
   * usual 64-bit targets perform).
   */
  function CInt(n: nat): (r: int)
    ensures -TwoTo31 <= r < TwoTo31
    ensures (r - n) % TwoTo32 == 0
    ensures n < TwoTo31 ==> r == n
  {
    var w := n % TwoTo32;
    if w < TwoTo31 then w else w - TwoTo32
  }

  /**
   * A Lean scalar array: the header fields `m_size` and `m_capacity`
   * (counted in elements), the element size stored in the object header,
   * and the payload bytes. `exclusive` is `lean_is_exclusive`: the
   * reference count is one.
   */
  class ScalarArray {
    var exclusive: bool
    var elemSize: nat
    var size: nat
    var capacity: nat
    var bytes: seq<byte>

    ghost predicate Valid()
      reads this
    {
      size <= capacity && size * elemSize <= |bytes|
    }

    /** The bytes that belong to the array: `m_size` elements of `elemSize` bytes. */
    ghost function Contents(): seq<byte>
      reads this
      requires Valid()
    {
      bytes[..size * elemSize]
    }

    ghost function HeaderOf(): Header
      reads this
    {
      Header.Header(elemSize, size, capacity)
    }

    /** A freshly allocated array, as `lean_alloc_sarray(elemSize, size, capacity)` followed by a fill. */
    constructor Alloc(elemSize: nat, size: nat, capacity: nat, bytes: seq<byte>)
      requires size <= capacity && size * elemSize <= |bytes|
      ensures Valid() && exclusive
      ensures this.elemSize == elemSize && this.size == size && this.capacity == capacity
      ensures this.bytes == bytes
    {
      this.exclusive := true;
      this.elemSize := elemSize;
      this.size := size;
      this.capacity := capacity;
      this.bytes := bytes;
    }

    /**
     * `lean_copy_byte_array` / `lean_copy_float_array`: a new exclusive array
     * with the same header and the same contents; only the `m_size`
     * elements are copied.
     */
    constructor CopyOf(a: ScalarArray)
      requires a.Valid()
      ensures Valid() && exclusive
      ensures HeaderOf() == a.HeaderOf()
      ensures Contents() == a.Contents()
    {
      this.exclusive := true;
      this.elemSize := a.elemSize;
      this.size := a.size;
      this.capacity := a.capacity;
      this.bytes := a.bytes[..a.size * a.elemSize];
    }
  }

  /** The header of a scalar array, as a value. */
  datatype Header = Header(elemSize: nat, size: nat, capacity: nat)

  /**
   * The run-time shape of a boxed Lean value as the glue sees it: a scalar
   * array, a constructor object with its fields, a boxed `Float`, a null
   * field pointer, or anything else.
   */
  datatype Obj =
    | Scalar(arr: ScalarArray)
    | Ctor(fields: seq<Obj>)
    | BoxedFloat(val: real)
    | Null
    | Other

  /**
   * The inputs on which testing the shape and reading constructor field 0
   * are defined. A null pointer has no header to test. A boxed `Float` is a
   * constructor with no object fields, so field 0 does not exist.
   */
  predicate ShapeTestable(o: Obj)
  {
    !o.Null? && !o.BoxedFloat?
  }
}
