/** Java-language facts the widget relies on: 32-bit `int`, its wrap-around,
    truncating division, `Math.max`, `null`, and the one exception the core
    can raise. */
module JavaLang {

  const MinInt32: int := -0x8000_0000
  const MaxInt32: int := 0x7fff_ffff

  /** A Java `int`. */
  type Int32 = x: int | MinInt32 <= x <= MaxInt32

  /** The Java `int` that an exact integer result wraps to.  Java's `+`, `-`
      and `*` on `int` wrap at every step; because wrapping is a ring
      homomorphism, wrapping each step gives the same value as wrapping the
      exact result once. */
  function Wrap32(x: int): (r: Int32)
    ensures (x - r) % 0x1_0000_0000 == 0
    ensures MinInt32 <= x <= MaxInt32 ==> r == x
  {
    (x - MinInt32) % 0x1_0000_0000 + MinInt32
  }

  /** Java's `x / 2`: division that truncates toward zero. */
  function JavaHalf(x: int): (q: int)
    ensures -1 <= x - 2 * q <= 1
    ensures x >= 0 ==> q >= 0 && x - 2 * q >= 0
    ensures x <= 0 ==> q <= 0 && x - 2 * q <= 0
  {
    if x >= 0 then x / 2 else -((-x) / 2)
  }

  /** `Math.max(a, b)`. */
  function Max(a: int, b: int): (m: int)
    ensures m >= a && m >= b
    ensures m == a || m == b
  {
    if a >= b then a else b
  }

  /** A nullable reference: `None` is Java's `null`. */
  datatype Option<T> = None | Some(value: T)

  /** The unchecked exceptions the core can throw. */
  datatype Exception = IndexOutOfBounds

  /** A value-returning Java call: it returns a value or throws. */
  datatype Result<T> = Ok(value: T) | Threw(exception: Exception)

  /** A `void` Java call: it completes normally or throws. */
  datatype Completion = Normal | Abrupt(exception: Exception)
}
