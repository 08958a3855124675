/** Small value types shared by the model: optional values, results and Go's int64/uint64 bounds. */
module Base {

  datatype Option<T> = None | Some(value: T)

  datatype Result<T, E> = Ok(value: T) | Err(error: E)

  const MaxInt64: int := 0x7FFF_FFFF_FFFF_FFFF
  const MinInt64: int := -0x8000_0000_0000_0000
  const MaxUint64: int := 0xFFFF_FFFF_FFFF_FFFF

  /** Values of Go's int64. */
  type Int64 = x: int | MinInt64 <= x <= MaxInt64

  predicate InInt64(x: int) {
    MinInt64 <= x <= MaxInt64
  }
}
