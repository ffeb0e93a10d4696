/**
 * The C integer semantics the client relies on, written out explicitly:
 * `uint32_t` wrap-around (tick arithmetic), the conversion of a `uint32_t`
 * into an `int`, and C's division, which truncates toward zero where
 * Dafny's `/` is Euclidean.
 */
module CInt {

  const Two32: int := 0x1_0000_0000
  const Two31: int := 0x8000_0000

  /** The values of a C `uint32_t`. */
  type Uint32 = x: int | 0 <= x < 0x1_0000_0000

  function Abs(x: int): (r: int)
    ensures r >= 0 && (r == x || r == -x)
  {
    if x < 0 then -x else x
  }

  /** Conversion of an arbitrary integer to `uint32_t` (reduction modulo 2^32). */
  function Wrap32(x: int): (r: Uint32)
    ensures (x - r) % Two32 == 0
    ensures 0 <= x < Two32 ==> r == x
    ensures Two32 <= x < 2 * Two32 ==> r == x - Two32
    ensures -Two32 <= x < 0 ==> r == x + Two32
  {
    x % Two32
  }

  /** `a + b` on `uint32_t` operands. */
  function Add32(a: Uint32, b: int): (r: Uint32)
    ensures (a + b - r) % Two32 == 0
  {
    Wrap32(a + b)
  }

  /** Wrapping an intermediate sum does not change the wrapped total. */
  lemma WrapAdd(x: int, y: int)
    ensures Add32(Wrap32(x), y) == Wrap32(x + y)
  {
    var k := (x - Wrap32(x)) / Two32;
    assert x == Wrap32(x) + k * Two32;
    assert (Wrap32(x) + y + k * Two32) % Two32 == (Wrap32(x) + y) % Two32;
  }

  /** `a - b` on `uint32_t` operands: the ticks elapsed from `b` to `a`, across one wrap. */
  function Sub32(a: Uint32, b: Uint32): (r: Uint32)
    ensures b <= a ==> r == a - b
    ensures a < b ==> r == a - b + Two32
    ensures Add32(b, r) == a
  {
    Wrap32(a - b)
  }

  /** A `uint32_t` stored into a 32-bit two's-complement `int`. */
  function ToInt32(u: Uint32): (r: int)
    ensures -Two31 <= r < Two31
    ensures Wrap32(r) == u
    ensures u < Two31 ==> r == u
  {
    if u < Two31 then u else u - Two32
  }

  /** C's `a / b`: the quotient truncated toward zero. */
  function TruncDiv(a: int, b: int): (q: int)
    requires b != 0
    ensures a >= 0 ==> 0 <= a - q * b < Abs(b)
    ensures a < 0 ==> -Abs(b) < a - q * b <= 0
  {
    if a >= 0 then
      if b > 0 then a / b else -(a / -b)
    else
      if b > 0 then -(-a / b) else -a / -b
  }

  /** On non-negative operands C's division and Dafny's agree. */
  lemma TruncDivOfNonNegative(a: int, b: int)
    requires a >= 0 && b > 0
    ensures TruncDiv(a, b) == a / b
  {
  }

  /**
   * The truncated quotient of `a` by a positive divisor lies between 0 and
   * `a` itself: truncation never overshoots and never flips the sign.
   */
  lemma TruncDivBetween(a: int, b: int)
    requires b >= 1
    ensures a >= 0 ==> 0 <= TruncDiv(a, b) <= a
    ensures a < 0 ==> a <= TruncDiv(a, b) <= 0
  {
    if a >= 0 {
      QuotientBelowDividend(a, b);
    } else {
      QuotientBelowDividend(-a, b);
    }
  }

  lemma QuotientBelowDividend(a: nat, b: int)
    requires b >= 1
    ensures 0 <= a / b <= a
  {
    var q := a / b;
    assert q * b <= a;
    assert q >= 0;
    MulMonotone(q, b);
  }

  lemma MulMonotone(q: nat, b: int)
    requires b >= 1
    ensures q <= q * b
  {
    assert q * b == q + q * (b - 1);
    assert q * (b - 1) >= 0;
  }

  /** The quotient is non-negative when the operands agree in sign and non-positive otherwise. */
  lemma TruncDivSign(a: int, b: int)
    requires b != 0
    ensures (a >= 0) == (b > 0) ==> TruncDiv(a, b) >= 0
    ensures (a >= 0) != (b > 0) ==> TruncDiv(a, b) <= 0
  {
    if a >= 0 {
      QuotientBelowDividend(a, Abs(b));
    } else {
      QuotientBelowDividend(-a, Abs(b));
    }
  }

  /** C truncation of a quotient with a negative dividend is the negation of the positive case. */
  lemma TruncDivNegate(a: int, b: int)
    requires b != 0
    ensures TruncDiv(-a, b) == -TruncDiv(a, b)
  {
  }
}
