/**
 * Go's fixed-width integers as used by the option builders and the ORM:
 * `int64` skip and limit values, `uint` page numbers (64 bits wide), the
 * wrap-around of their arithmetic and conversions, and Go's integer
 * division, which truncates toward zero.
 */
module GoInts {

  const TWO_63: int := 0x8000_0000_0000_0000
  const TWO_64: int := 0x1_0000_0000_0000_0000

  type int64 = x: int | -TWO_63 <= x < TWO_63
  type uint64 = x: int | 0 <= x < TWO_64

  /** Reduction modulo 2^64 into `uint64`: Go's `uint` arithmetic. */
  function WrapU64(x: int): (r: uint64)
    ensures (r - x) % TWO_64 == 0
    ensures 0 <= x < TWO_64 ==> r == x
  {
    x % TWO_64
  }

  /** Two's-complement reduction into `int64`: Go's `int64` arithmetic and
      the conversion `int64(u)`. */
  function WrapI64(x: int): (r: int64)
    ensures (r - x) % TWO_64 == 0
    ensures -TWO_63 <= x < TWO_63 ==> r == x
    ensures TWO_63 <= x < TWO_64 ==> r == x - TWO_64
  {
    var m := x % TWO_64;
    if m < TWO_63 then m else m - TWO_64
  }

  /** Go's `/` on integers: the quotient truncated toward zero. */
  function GoDiv(a: int, b: int): (q: int)
    requires b != 0
    ensures a >= 0 && b > 0 ==> q == a / b
  {
    if (a >= 0) == (b > 0) then Abs(a) / Abs(b) else -(Abs(a) / Abs(b))
  }

  /** Go's `%` on integers: `a - (a / b) * b` with the truncated quotient. */
  function GoMod(a: int, b: int): (r: int)
    requires b != 0
    ensures a >= 0 && b > 0 ==> r == a % b
  {
    a - GoDiv(a, b) * b
  }

  function Abs(x: int): nat {
    if x < 0 then -x else x
  }
}
