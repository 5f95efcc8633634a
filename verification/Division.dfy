/** Facts about quotients, remainders and products that the solver needs one at a time. */
module Division {
  lemma DivMod(n: int, d: nat)
    requires d > 0
    ensures n == n / d * d + n % d && 0 <= n % d < d
  {
  }

  lemma AwayFromZero(k: int, d: int)
    requires d > 0
    ensures k > 0 ==> k * d >= d
    ensures k < 0 ==> k * d <= -d
  {
  }

  /** Quotient and remainder are determined by what they say. */
  lemma QuotientIs(n: int, d: nat, q: int, r: int)
    requires d > 0 && n == q * d + r && 0 <= r < d
    ensures n / d == q && n % d == r
  {
    DivMod(n, d);
    Unmultiply(n / d, q, d);
    AwayFromZero(n / d - q, d);
  }

  lemma Unmultiply(a: int, b: int, d: int)
    ensures (a - b) * d == a * d - b * d
  {
  }

  lemma Multiple(k: nat, d: nat)
    requires d > 0
    ensures k * d % d == 0 && k * d / d == k
  {
    QuotientIs(k * d, d, k, 0);
  }

  lemma Monotone(a: nat, b: nat, g: nat)
    requires a <= b
    ensures a * g <= b * g
  {
  }

  lemma ModuloSum(a: nat, b: nat, m: nat)
    requires m > 0
    ensures (a % m + b) % m == (a + b) % m
  {
    DivMod(a, m);
    DivMod(a % m + b, m);
    var q := a / m + (a % m + b) / m;
    assert q * m == a / m * m + (a % m + b) / m * m;
    QuotientIs(a + b, m, q, (a % m + b) % m);
  }
}
