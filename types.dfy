/** Fixed-width integers of the C# program and the failure-carrying wrappers
    the model uses where the program throws or produces an unspecified value. */
module Types {

  const TWO_TO_THE_32: int := 0x1_0000_0000

  /** C# `byte` */
  type uint8 = x: int | 0 <= x < 0x100
  /** C# `ushort` */
  type uint16 = x: int | 0 <= x < 0x1_0000
  /** C# `uint` */
  type uint32 = x: int | 0 <= x < TWO_TO_THE_32
  /** C# `short`: one 16-bit PCM sample */
  type int16 = x: int | -0x8000 <= x < 0x8000

  datatype Option<+T> = None | Some(value: T)

  datatype Result<+T, +E> = Success(value: T) | Failure(error: E)

  /** Reduction of an exact result to C# `uint`: unchanged when it fits,
      otherwise off by a multiple of 2^32. */
  function Wrap(p: int): (r: uint32)
    ensures 0 <= p < TWO_TO_THE_32 ==> r == p
    ensures (r - p) % TWO_TO_THE_32 == 0
  {
    p % TWO_TO_THE_32
  }

  /** `a + b` on C# `uint` in an unchecked context: wraps modulo 2^32 */
  function Add32(a: uint32, b: uint32): (r: uint32)
    ensures a + b < TWO_TO_THE_32 ==> r == a + b
    ensures a + b >= TWO_TO_THE_32 ==> r == a + b - TWO_TO_THE_32
  {
    Wrap(a + b)
  }

  /** `a - b` on C# `uint` in an unchecked context: wraps modulo 2^32 */
  function Sub32(a: uint32, b: uint32): (r: uint32)
    ensures a >= b ==> r == a - b
    ensures a < b ==> r == a - b + TWO_TO_THE_32
  {
    Wrap(a - b)
  }
}
