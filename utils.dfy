/** Integer helpers of the engine (src/utils/utils.cpp) and C++ integer operators. */
module Utils {

  /** Absolute value, the reference used to state what Sign promises. */
  function Abs(v: int): (r: int)
    ensures r >= 0 && (r == v || r == -v)
  {
    if v < 0 then -v else v
  }

  /**
   * Utils::Sign: the difference of the two comparisons (value > 0) and (value < 0),
   * each converted from bool to 0 or 1.
   */
  function Sign(v: int): (r: int)
    ensures v > 0 ==> r == 1
    ensures v < 0 ==> r == -1
    ensures v == 0 ==> r == 0
    ensures r * v == Abs(v)
  {
    (if v > 0 then 1 else 0) - (if v < 0 then 1 else 0)
  }

  /** Utils::Clamp on ints: the lower bound is tested first, then the upper one. */
  function Clamp(v: int, min: int, max: int): (r: int)
    ensures v < min ==> r == min
    ensures min <= max ==> min <= r <= max
    ensures min <= v <= max ==> r == v
    ensures min <= v && v > max ==> r == max
  {
    if v < min then min
    else if v > max then max
    else v
  }

  lemma ClampIdempotent(v: int, min: int, max: int)
    requires min <= max
    ensures Clamp(Clamp(v, min, max), min, max) == Clamp(v, min, max)
  {
  }

  /** SDL_GetTicks returns a Uint32: tick arithmetic is unsigned 32-bit. */
  const UINT32_LIMIT: int := 0x1_0000_0000

  /** An int compared against a Uint32 is converted to Uint32 first (reduced modulo 2^32). */
  function AsUint32(v: int): (r: int)
    ensures 0 <= r < UINT32_LIMIT
    ensures 0 <= v < UINT32_LIMIT ==> r == v
    ensures -UINT32_LIMIT <= v < 0 ==> r == v + UINT32_LIMIT
  {
    v % UINT32_LIMIT
  }

  /**
   * C++ integer division by a positive divisor, which truncates toward zero
   * where Dafny's / rounds toward negative infinity.
   */
  function TruncDiv(a: int, b: int): (q: int)
    requires b > 0
  {
    if a >= 0 then a / b else -((-a) / b)
  }

  /** C++ remainder by a positive divisor: its sign follows the dividend. */
  function TruncRem(a: int, b: int): (r: int)
    requires b > 0
  {
    if a >= 0 then a % b else -((-a) % b)
  }

  /**
   * The pair (TruncDiv, TruncRem) is C++'s: quotient times divisor plus remainder
   * gives back the dividend, the remainder is smaller than the divisor in magnitude
   * and has the sign of the dividend, and the quotient agrees with Dafny's on a
   * non-negative dividend.
   */
  lemma TruncDivRem(a: int, b: int)
    requires b > 0
    ensures a == TruncDiv(a, b) * b + TruncRem(a, b)
    ensures Abs(TruncRem(a, b)) < b
    ensures a >= 0 ==> TruncRem(a, b) >= 0 && TruncDiv(a, b) == a / b && TruncRem(a, b) == a % b
    ensures a <= 0 ==> TruncRem(a, b) <= 0 && TruncDiv(a, b) <= 0
  {
    if a < 0 {
      var n := -a;
      assert n == (n / b) * b + n % b;
      assert n / b >= 0;
      assert a == -((n / b) * b) - n % b;
      assert -((n / b) * b) == (-(n / b)) * b;
    }
  }
}
