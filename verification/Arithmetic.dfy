/** Powers of two, and division by a number that need not be a constant. */
module Arithmetic {
  function Pow2(n: nat): (p: nat)
    ensures p > 0
  {
    if n == 0 then 1 else 2 * Pow2(n - 1)
  }

  /** A nonzero multiple of p is at least p away from zero. */
  lemma Nearby(p: int, d: int)
    requires p >= 0
    ensures (d >= 1 ==> p * d >= p) && (d <= -1 ==> p * d <= -p)
  {
  }

  /** Quotient and remainder are unique. */
  lemma DivMod(x: int, b: nat, q: int, r: nat)
    requires r < b && x == b * q + r
    ensures x / b == q && x % b == r
  {
    var d := x / b - q;
    assert b * (x / b) + x % b == x;
    assert b * d == r - x % b;
    Nearby(b, d);
  }
}
