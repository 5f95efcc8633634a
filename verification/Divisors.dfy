/** Greatest common divisors: of the fraction the reference driver reduces, and of the ring and block
    sizes round which an index moves. */
module Divisors {
  import opened Division
  import opened Ring

  predicate Divides(d: nat, n: nat)
    requires d > 0
  {
    n % d == 0
  }

  /** The kernel's `gcd` for arguments that are not both zero. */
  function Gcd(a: nat, b: nat): (g: nat)
    requires a > 0 || b > 0
    ensures g > 0
    decreases b
  {
    if b == 0 then a else Gcd(b, a % b)
  }

  lemma MultipleOfSum(a: nat, b: nat, k: nat, d: nat)
    requires d > 0 && Divides(d, a) && Divides(d, b)
    ensures Divides(d, k * a + b)
  {
    DivMod(a, d);
    DivMod(b, d);
    var m := k * (a / d) + b / d;
    assert k * a == k * (a / d * d) == k * (a / d) * d;
    assert k * a + b == m * d;
    Multiple(m, d);
  }

  lemma MultipleOfRest(a: nat, b: nat, k: nat, d: nat)
    requires d > 0 && Divides(d, a) && Divides(d, k * a + b)
    ensures Divides(d, b)
  {
    DivMod(a, d);
    DivMod(k * a + b, d);
    var m := (k * a + b) / d - k * (a / d);
    assert k * a == k * (a / d * d) == k * (a / d) * d;
    QuotientIs(b, d, m, 0);
  }

  /** It divides both. */
  lemma {:induction false} GcdDivides(a: nat, b: nat)
    requires a > 0 || b > 0
    ensures Divides(Gcd(a, b), a) && Divides(Gcd(a, b), b)
    decreases b
  {
    if b > 0 {
      DivMod(a, b);
      GcdDivides(b, a % b);
      MultipleOfSum(b, a % b, a / b, Gcd(a, b));
    } else {
      Multiple(1, a);
      Multiple(0, a);
    }
  }

  /** Every common divisor divides it. */
  lemma {:induction false} GcdGreatest(a: nat, b: nat, d: nat)
    requires (a > 0 || b > 0) && d > 0 && Divides(d, a) && Divides(d, b)
    ensures Divides(d, Gcd(a, b))
    decreases b
  {
    if b > 0 {
      DivMod(a, b);
      MultipleOfRest(b, a % b, a / b, d);
      GcdGreatest(b, a % b, d);
    }
  }

  // ---- multiples modulo a number ----

  /** It is a sum of multiples of both. */
  lemma {:induction false} Bezout(a: nat, b: nat) returns (x: int, y: int)
    requires a > 0 || b > 0
    ensures a * x + b * y == Gcd(a, b)
    decreases b
  {
    if b == 0 {
      x, y := 1, 0;
    } else {
      var u, v := Bezout(b, a % b);
      x, y := v, u - a / b * v;
      DivMod(a, b);
      Exchange(a, b, a / b, a % b, u, v);
    }
  }

  lemma Exchange(a: int, b: int, q: int, r: int, u: int, v: int)
    requires a == q * b + r
    ensures a * v + b * (u - q * v) == b * u + r * v
  {
    assert a * v == q * b * v + r * v;
    assert b * (u - q * v) == b * u - b * (q * v);
    assert q * b * v == b * (q * v);
  }

  /** A fill count after `n` blocks. */
  function FillAfter(cap: nat, blk: nat, filled: int, n: nat): int
    decreases n
  {
    if n == 0 then filled else Advance(FillAfter(cap, blk, filled, n - 1), blk, cap)
  }

  lemma {:induction false} FillAfterIs(cap: nat, blk: nat, f: nat, n: nat)
    requires f < cap && blk < cap
    ensures FillAfter(cap, blk, f, n) == (f + n * blk) % cap
    decreases n
  {
    if n == 0 {
      SmallMod(f, cap);
    } else {
      FillAfterIs(cap, blk, f, n - 1);
      AdvanceIs((f + (n - 1) * blk) % cap, blk, cap);
      ModuloSum(f + (n - 1) * blk, blk, cap);
      assert f + (n - 1) * blk + blk == f + n * blk;
    }
  }

  lemma AdvanceIs(f: nat, blk: nat, cap: nat)
    requires f < cap && blk < cap
    ensures Advance(f, blk, cap) == (f + blk) % cap
  {
    assert Wrap(f + blk, cap) == (f + blk) % cap;
  }

  /** Blocks lead from a fill count to every other in the same class modulo the greatest common
      divisor of capacity and block. */
  lemma StepsLead(a: nat, b: nat, f: nat, t: nat) returns (n: nat)
    requires b < a && f < a && t < a && f % Gcd(a, b) == t % Gcd(a, b)
    ensures FillAfter(a, b, f, n) == t
  {
    var g := Gcd(a, b);
    var x, y := Bezout(a, b);
    DivMod(f, g);
    DivMod(t, g);
    Unmultiply(t / g, f / g, g);
    n := Arrive(a, b, f, t, x, y, t / g - f / g, g);
    FillAfterIs(a, b, f, n);
  }

  lemma Arrive(a: nat, b: nat, f: nat, t: nat, x: int, y: int, m: int, g: int) returns (n: nat)
    requires a > 0 && t < a && a * x + b * y == g && t - f == m * g
    ensures (f + n * b) % a == t
  {
    n := y * m % a;
    var q := y * m / a;
    DivMod(y * m, a);
    Unwind(a, b, x, y, m, q, n, g);
    QuotientIs(f + n * b, a, -(m * x + q * b), t);
  }

  lemma Unwind(a: int, b: int, x: int, y: int, m: int, q: int, n: int, g: int)
    requires a * x + b * y == g && y * m == q * a + n
    ensures n * b == m * g - (m * x + q * b) * a
  {
    assert n * b == y * m * b - q * a * b;
    assert m * g == m * (a * x) + m * (b * y);
    assert m * (b * y) == y * m * b;
    assert (m * x + q * b) * a == m * x * a + q * b * a;
    assert m * x * a == m * (a * x) && q * b * a == q * a * b;
  }

  /** They lead nowhere else. */
  lemma StepKeepsClass(a: nat, b: nat, f: nat)
    requires b < a && f < a
    ensures Advance(f, b, a) >= 0 && Advance(f, b, a) % Gcd(a, b) == f % Gcd(a, b)
  {
    var g := Gcd(a, b);
    GcdDivides(a, b);
    DivMod(a, g);
    DivMod(b, g);
    DivMod(f, g);
    var q := if f + b < a then 0 else 1;
    Regather(f, b / g, q, a / g, g, f / g, f % g);
    QuotientIs(Advance(f, b, a), g, f / g + b / g - q * (a / g), f % g);
  }

  lemma Regather(f: int, b: int, q: int, a: int, g: int, k: int, r: int)
    requires f == k * g + r
    ensures f + b * g - q * (a * g) == (k + b - q * a) * g + r
  {
    assert (k + b - q * a) * g == k * g + b * g - q * a * g;
    assert q * a * g == q * (a * g);
  }

  /** The largest number below `a` in the class of `f` modulo a divisor `g` of `a`. */
  function LargestInClass(a: nat, g: nat, f: nat): int
    requires g > 0
  {
    a - g + f % g
  }

  lemma LargestInClassIs(a: nat, g: nat, f: nat, n: nat)
    requires g > 0 && Divides(g, a) && a > 0 && n < a && n % g == f % g
    ensures n <= LargestInClass(a, g, f)
    ensures 0 <= LargestInClass(a, g, f) < a && LargestInClass(a, g, f) % g == f % g
  {
    DivMod(a, g);
    DivMod(n, g);
    var k := a / g;
    if n / g >= k { Monotone(k, n / g, g); }
    Monotone(n / g, k - 1, g);
    Unmultiply(k, 1, g);
    QuotientIs(a - g + f % g, g, k - 1, f % g);
  }
}
