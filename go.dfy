/** Go's built-in integer types, the bounds from package math, and the
    (value, error) pair every function in package num returns. */
module Go {

  datatype Option<+T> = None | Some(value: T)

  /** A Go function's two results: a value and an error, where `err == None`
      stands for a nil error. */
  datatype Returns<+T, +E> = Returns(value: T, err: Option<E>)

  const MaxInt32: int := 0x7FFF_FFFF
  const MinInt64: int := -0x8000_0000_0000_0000
  const MaxInt64: int := 0x7FFF_FFFF_FFFF_FFFF
  const MaxUint32: int := 0xFFFF_FFFF
  const MaxUint64: int := 0xFFFF_FFFF_FFFF_FFFF

  newtype int32 = x: int | -0x8000_0000 <= x < 0x8000_0000
  newtype uint32 = x: int | 0 <= x < 0x1_0000_0000
  newtype int64 = x: int | -0x8000_0000_0000_0000 <= x < 0x8000_0000_0000_0000
  newtype uint64 = x: int | 0 <= x < 0x1_0000_0000_0000_0000

  predicate InInt64(x: int) {
    MinInt64 <= x <= MaxInt64
  }

  /** Two's-complement conversion of a mathematical integer to int64, as Go's
      `int64(...)` conversion and int64 arithmetic do. */
  function Wrap64(x: int): (r: int64)
    ensures (r as int - x) % 0x1_0000_0000_0000_0000 == 0
    ensures InInt64(x) ==> r as int == x
  {
    ((x - MinInt64) % 0x1_0000_0000_0000_0000 + MinInt64) as int64
  }
}
