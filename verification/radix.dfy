/** Integer facts behind the closed-form variable numberings: a value written
    as q * s + r with 0 <= r < s has quotient q and remainder r, and mixed-radix
    digits stay below the product of their radices. */
module Radix {

  lemma MulSign(k: int, s: int)
    requires s > 0
    ensures k > 0 ==> k * s >= s
    ensures k < 0 ==> k * s <= -s
  {
  }

  lemma DivMod(q: int, r: int, s: int)
    requires s > 0 && 0 <= r < s
    ensures (q * s + r) / s == q && (q * s + r) % s == r
  {
    var a := q * s + r;
    assert a == (a / s) * s + a % s;
    var k := a / s - q;
    assert k * s == r - a % s by {
      assert (a / s) * s - q * s == k * s;
    }
    MulSign(k, s);
  }

  lemma Digit(a: int, b: int, A: int, B: int)
    requires 0 <= a < A && 0 <= b < B
    ensures 0 <= a * B + b < A * B
  {
    MulSign(A - 1 - a, B);
    assert (A - 1 - a) * B + a * B == A * B - B;
  }

  lemma DivBelow(v: int, s: int, A: int)
    requires s > 0 && 0 <= v < A * s
    ensures 0 <= v / s < A
  {
    assert v == (v / s) * s + v % s;
    MulSign(v / s - A, s);
    assert (v / s - A) * s == (v / s) * s - A * s;
    MulSign(v / s, s);
  }

  /** Scaling by a positive factor keeps the order. */
  lemma ScaleLess(a: int, b: int, s: int)
    requires s > 0
    ensures a * s < b * s <==> a < b
  {
    MulSign(b - a, s);
    MulSign(a - b, s);
    assert (b - a) * s == b * s - a * s;
  }

  lemma MulAtLeast(k: int, s: int)
    requires k >= 1 && s >= 0
    ensures k * s >= s
  {
    assert k * s == (k - 1) * s + s;
    if k > 1 && s > 0 {
      MulSign(k - 1, s);
    }
  }

  /** Block p and offset-block q of size n * m, gathered: p * n * m + q * n * m == k * (n * m) for k = p + q. */
  lemma BlockSum(p: int, q: int, n: int, m: int, k: int)
    requires k == p + q
    ensures p * n * m + q * n * m == k * (n * m)
  {
    assert p * n * m == p * (n * m);
    assert q * n * m == q * (n * m);
  }

  /** A positive product of naturals has positive factors. */
  lemma PositiveFactors(a: int, b: int)
    requires a >= 0 && b >= 0 && a * b > 0
    ensures a > 0 && b > 0
  {
  }
}
