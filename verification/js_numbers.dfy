/**
 * The parts of JavaScript number semantics the model needs: the 32-bit
 * conversion behind the bitwise operators, `<<`, and `Math.round`.
 */
module JsNumbers {

  const TwoTo31: int := 0x8000_0000
  const TwoTo32: int := 0x1_0000_0000

  predicate IsInt32(x: int) {
    -TwoTo31 <= x < TwoTo31
  }

  /** ECMAScript ToInt32 on an integral number: the int32 congruent to `x` modulo 2^32. */
  function ToInt32(x: int): (r: int)
    ensures IsInt32(r)
    ensures (x - r) % TwoTo32 == 0
  {
    (x + TwoTo31) % TwoTo32 - TwoTo31
  }

  /** ToInt32 leaves a value that is already an int32 alone. */
  lemma ToInt32OfInt32(x: int)
    requires IsInt32(x)
    ensures ToInt32(x) == x
  {
  }

  function Pow2(n: nat): (r: nat)
    ensures r > 0
  {
    if n == 0 then 1 else 2 * Pow2(n - 1)
  }

  /** `x << n` for an integral `x` and a shift count below 32. */
  function ShiftLeft(x: int, n: nat): (r: int)
    requires n < 32
    ensures IsInt32(r)
    ensures (x * Pow2(n) - r) % TwoTo32 == 0
  {
    var y := ToInt32(x);
    var r := ToInt32(y * Pow2(n));
    ShiftLeftCongruent(x, y, Pow2(n));
    r
  }

  /** Multiplying preserves congruence modulo 2^32. */
  lemma ShiftLeftCongruent(x: int, y: int, k: nat)
    requires (x - y) % TwoTo32 == 0
    ensures (x * k - ToInt32(y * k)) % TwoTo32 == 0
  {
    var q := (x - y) / TwoTo32;
    assert x - y == q * TwoTo32;
    assert x * k - y * k == (q * k) * TwoTo32;
    var r := ToInt32(y * k);
    var q' := (y * k - r) / TwoTo32;
    assert y * k - r == q' * TwoTo32;
    assert x * k - r == (q * k + q') * TwoTo32;
  }

  /** `Math.round` on a real: the nearest integer, halves rounded up. */
  function Round(x: real): (r: int)
    ensures r as real - 0.5 <= x < r as real + 0.5
  {
    (x + 0.5).Floor
  }
}
