/**
 * Fixed-width integer arithmetic of the JVM, written out over Dafny's
 * unbounded integers: two's-complement wrap-around of `Int` (32 bits) and
 * `Long` (64 bits), and integer division that truncates toward zero.
 */
module JavaInt {

  const TWO_32: int := 0x1_0000_0000
  const TWO_64: int := 0x1_0000_0000_0000_0000

  /** One octet of a `ByteArray`, held as its unsigned value. */
  type Byte = b: int | 0 <= b < 256

  /** The value a JVM `Byte` (signed) has for this octet. */
  function Signed(b: Byte): (r: int)
    ensures -128 <= r < 128 && (r - b) % 256 == 0
  {
    if b < 128 then b else b - 256
  }

  predicate IsInt32(x: int) { -0x8000_0000 <= x < 0x8000_0000 }
  predicate IsInt64(x: int) { -0x8000_0000_0000_0000 <= x < 0x8000_0000_0000_0000 }

  /** The values of a JVM `Int` and `Long`. */
  type Int32 = x: int | IsInt32(x)
  type Int64 = x: int | IsInt64(x)

  /** The `Int` that a JVM computation yielding `x` actually holds. */
  function Wrap32(x: int): (r: int)
    ensures IsInt32(r)
    ensures (r - x) % TWO_32 == 0
    ensures IsInt32(x) ==> r == x
  {
    (x + 0x8000_0000) % TWO_32 - 0x8000_0000
  }

  /** The `Long` that a JVM computation yielding `x` actually holds. */
  function Wrap64(x: int): (r: int)
    ensures IsInt64(r)
    ensures (r - x) % TWO_64 == 0
    ensures IsInt64(x) ==> r == x
  {
    (x + 0x8000_0000_0000_0000) % TWO_64 - 0x8000_0000_0000_0000
  }

  /** JVM division by a positive divisor: the quotient is truncated toward zero. */
  function TruncDiv(a: int, b: int): (q: int)
    requires b > 0
    ensures a >= 0 ==> 0 <= q * b <= a < q * b + b
    ensures a < 0 ==> q * b - b < a <= q * b <= 0
  {
    var n := if a >= 0 then a else -a;
    DivBounds(n, b);
    if a >= 0 then n / b else -(n / b)
  }

  lemma DivBounds(n: int, b: int)
    requires n >= 0 && b > 0
    ensures 0 <= (n / b) * b <= n < (n / b) * b + b
  {
    assert n == (n / b) * b + n % b;
    assert n / b >= 0;
  }
}
