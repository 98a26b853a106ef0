/**
 * The translation of Lean's enumeration tags into CBLAS enumerations
 * (`leanblas_cblas_order`, `_transpose`, `_uplo`, `_diag`). Each map is
 * total: a tag outside the Lean enumeration is not rejected but falls back
 * to a default constant.
 */
module Tags {
  import opened Runtime

  datatype Order = RowMajor | ColMajor
  datatype Transpose = NoTrans | Trans | ConjTrans
  datatype Uplo = Upper | Lower
  datatype Diag = NonUnit | Unit

  /** Tag 0 is row-major; every other byte, not only 1, is column-major. */
  function CblasOrder(tag: uint8): (r: Order)
    ensures r == RowMajor <==> tag == 0
  {
    if tag == 0 then RowMajor else ColMajor
  }

  /** Tags 0, 1, 2 are the three modes; any other byte falls back to no transpose. */
  function CblasTranspose(tag: uint8): (r: Transpose)
    ensures r == Trans <==> tag == 1
    ensures r == ConjTrans <==> tag == 2
    ensures r == NoTrans <==> tag != 1 && tag != 2
  {
    match tag
    case 0 => NoTrans
    case 1 => Trans
    case 2 => ConjTrans
    case _ => NoTrans
  }

  /** Tag 1 is the lower triangle; every other byte is the upper one. */
  function CblasUplo(tag: uint8): (r: Uplo)
    ensures r == Lower <==> tag == 1
  {
    match tag
    case 0 => Upper
    case 1 => Lower
    case _ => Upper
  }

  /** Tag 1 is a unit diagonal; every other byte is a non-unit one. */
  function CblasDiag(tag: uint8): (r: Diag)
    ensures r == Unit <==> tag == 1
  {
    match tag
    case 0 => NonUnit
    case 1 => Unit
    case _ => NonUnit
  }

  // The tags a well-typed Lean caller sends: the constructor index of each enumeration.

  function OrderTag(o: Order): (t: uint8)
    ensures t < 2
  {
    match o
    case RowMajor => 0
    case ColMajor => 1
  }

  function TransposeTag(t: Transpose): (r: uint8)
    ensures r < 3
  {
    match t
    case NoTrans => 0
    case Trans => 1
    case ConjTrans => 2
  }

  function UploTag(u: Uplo): (t: uint8)
    ensures t < 2
  {
    match u
    case Upper => 0
    case Lower => 1
  }

  function DiagTag(d: Diag): (t: uint8)
    ensures t < 2
  {
    match d
    case NonUnit => 0
    case Unit => 1
  }

  /** Every enumeration value survives the trip through its Lean tag. */
  lemma TagRoundTrip(o: Order, t: Transpose, u: Uplo, d: Diag)
    ensures CblasOrder(OrderTag(o)) == o
    ensures CblasTranspose(TransposeTag(t)) == t
    ensures CblasUplo(UploTag(u)) == u
    ensures CblasDiag(DiagTag(d)) == d
  {
  }

  /**
   * A tag outside the Lean enumeration behaves exactly like the tag of the
   * default constant: the maps never fail and never invent a fourth value.
   */
  lemma OutOfRangeTagsFallBack(tag: uint8)
    ensures tag >= 2 ==> CblasOrder(tag) == CblasOrder(1)
    ensures tag >= 3 ==> CblasTranspose(tag) == CblasTranspose(0)
    ensures tag >= 2 ==> CblasUplo(tag) == CblasUplo(0)
    ensures tag >= 2 ==> CblasDiag(tag) == CblasDiag(0)
  {
  }

  /** Re-encoding the decoded value gives the canonical tag, which decodes the same way. */
  lemma DecodeIsIdempotent(tag: uint8)
    ensures CblasOrder(OrderTag(CblasOrder(tag))) == CblasOrder(tag)
    ensures CblasTranspose(TransposeTag(CblasTranspose(tag))) == CblasTranspose(tag)
    ensures CblasUplo(UploTag(CblasUplo(tag))) == CblasUplo(tag)
    ensures CblasDiag(DiagTag(CblasDiag(tag))) == CblasDiag(tag)
  {
  }
}
