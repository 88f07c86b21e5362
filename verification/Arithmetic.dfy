/** Division by a variable, proved once from cancellation. */
module Arithmetic {

  lemma CancelFactor(a: int, b: int, d: int)
    requires d > 0 && a * d < b * d
    ensures a < b
  {
    assert (b - a) * d == b * d - a * d;
  }

  lemma DivIs(x: int, d: int, q: int, r: int)
    requires d > 0 && x == q * d + r && 0 <= r < d
    ensures x / d == q
  {
    var p := x / d;
    assert x == p * d + x % d;
    assert (p + 1) * d == p * d + d && (q + 1) * d == q * d + d;
    CancelFactor(p, q + 1, d);
    CancelFactor(q, p + 1, d);
  }

  lemma DivPlusOne(x: nat, d: nat)
    requires d > 0
    ensures (x + d) / d == x / d + 1
  {
    var q := x / d;
    assert x == q * d + x % d && (q + 1) * d == q * d + d;
    DivIs(x + d, d, q + 1, x % d);
  }

  /** A multiple that fits below `t` has a factor that fits below the quotient. */
  lemma FactorFits(k: nat, t: nat, d: nat)
    requires d > 0 && k * d <= t
    ensures k <= t / d
  {
    var q := t / d;
    assert t == q * d + t % d && (q + 1) * d == q * d + d;
    CancelFactor(k, q + 1, d);
  }

  lemma ExcessFits(n: nat, m: nat, t: nat, d: nat)
    requires d > 0 && (n > m ==> (n - m) * d <= t)
    ensures n <= m + t / d
  {
    if n > m { FactorFits(n - m, t, d); }
  }

  lemma DivMonotone(x: nat, y: nat, d: nat)
    requires d > 0 && x <= y
    ensures x / d <= y / d
  {
    assert x == x / d * d + x % d;
    FactorFits(x / d, y, d);
  }

  lemma MulMonotone(m: nat, x: nat, y: nat)
    requires x <= y
    ensures m * x <= m * y
  {
    assert m * y - m * x == m * (y - x);
  }
}
