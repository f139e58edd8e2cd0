/** Facts about integer division used to count batches. */
module Arith {
  /** A non-zero multiple of a positive number is at least that number away from zero. */
  lemma {:induction false} MulSign(d: int, b: int)
    requires b > 0
    ensures d >= 1 ==> d * b >= b
    ensures d <= -1 ==> d * b <= -b
    decreases if d < 0 then -d else d
  {
    if d > 1 {
      MulSign(d - 1, b);
      assert d * b == (d - 1) * b + b;
    } else if d < -1 {
      MulSign(d + 1, b);
      assert d * b == (d + 1) * b - b;
    }
  }

  /** Quotient and remainder are unique. */
  lemma DivUnique(x: int, b: int, q: int, r: int)
    requires b > 0 && 0 <= r < b && x == q * b + r
    ensures x / b == q
  {
    var q', r' := x / b, x % b;
    assert x == q' * b + r';
    assert (q - q') * b == r' - r;
    MulSign(q - q', b);
  }

  /** Adding the divisor adds one to the quotient. */
  lemma DivAddDivisor(x: int, b: int)
    requires x >= 0 && b > 0
    ensures (x + b) / b == x / b + 1
  {
    var q, r := x / b, x % b;
    assert x == q * b + r;
    assert x + b == (q + 1) * b + r;
    DivUnique(x + b, b, q + 1, r);
  }

  /** A number from `b` up to `2 * b - 1` holds `b` once. */
  lemma DivBetween(y: int, b: int)
    requires b > 0 && b <= y < 2 * b
    ensures y / b == 1
  {
    DivUnique(y, b, 1, y - b);
  }
}
