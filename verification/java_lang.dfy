/** The few facts about the Java platform the model depends on: 32-bit `int`
    arithmetic and the unchecked exceptions the modelled code can raise. */
module JavaLang {

  const MIN_INT: int := -0x8000_0000
  const MAX_INT: int := 0x7fff_ffff

  /** Java's `int`. */
  type Int32 = x: int | -0x8000_0000 <= x <= 0x7fff_ffff

  /** Two's-complement wrap-around of an unbounded result into an `int`, as
      every Java `int` addition and subtraction does. */
  function Wrap(x: int): (r: Int32)
    ensures (r - x) % 0x1_0000_0000 == 0
    ensures MIN_INT <= x <= MAX_INT ==> r == x
  {
    (x - MIN_INT) % 0x1_0000_0000 + MIN_INT
  }

  /** The exceptions thrown by the modelled code, directly or by array indexing. */
  datatype JavaException =
    | IllegalArgumentException
    | IllegalStateException
    | ArrayIndexOutOfBoundsException
}
