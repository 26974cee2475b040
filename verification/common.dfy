/** Small shared vocabulary: optional values and the 32-bit integer range of C#'s `int`. */
module Common {

  /** A value that may be absent; stands for a C# reference that may be null. */
  datatype Option<+T> = None | Some(value: T)

  /** The outcome of an operation that either yields a value or throws. */
  datatype Result<+T, +E> = Ok(value: T) | Err(error: E)

  const Int32Min: int := -0x8000_0000
  const Int32Max: int := 0x7FFF_FFFF

  /** The values of C#'s `int`. */
  type Int32 = x: int | Int32Min <= x <= Int32Max

  /** Two's-complement wrap-around of an unchecked C# `int` operation. */
  function Wrap32(x: int): (r: Int32)
    ensures (r - x) % 0x1_0000_0000 == 0
    ensures Int32Min <= x <= Int32Max ==> r == x
  {
    var m := (x - Int32Min) % 0x1_0000_0000;
    m + Int32Min
  }
}
