/** The integer arithmetic of the reference driver: what `adf4350_set_freq` computes
    (sw/langford_driver/libs/reference/adf4350.c:136-174) and what `adf4350_show` reports of it
    (lines 284-287). */
module IntegerTuning {
  import opened Words
  import opened Division
  import opened Divisors

  const MAX_MODULUS: nat := 4095
  const U32: nat := 0x1_0000_0000

  // ---- the quotient ----

  /** `tmp`: the product, plus one rather than half the divisor, divided. */
  function Steps(freq: nat, mod: nat, fpfd: nat): nat
    requires fpfd > 0
  {
    (freq * mod + (if fpfd > 1 then 1 else 0)) / fpfd
  }

  /** `q` is a nearest integer to `n / d`. */
  predicate Nearest(q: int, n: int, d: int) {
    -d <= 2 * (q * d - n) <= d
  }

  /** The quotient is the floor, except that a remainder one short of the divisor is rounded
      up; so it is a nearest one exactly for these remainders and those up to half. */
  lemma StepsNearestIff(freq: nat, mod: nat, fpfd: nat)
    requires fpfd > 0
    ensures var n := freq * mod;
            && Steps(freq, mod, fpfd) == n / fpfd + (if fpfd > 1 && n % fpfd == fpfd - 1 then 1 else 0)
            && (Nearest(Steps(freq, mod, fpfd), n, fpfd) <==> 2 * (n % fpfd) <= fpfd || n % fpfd == fpfd - 1)
  {
    var n := freq * mod;
    DivMod(n, fpfd);
    var q, r := n / fpfd, n % fpfd;
    Unmultiply(q + 1, 1, fpfd);
    if fpfd == 1 {
      QuotientIs(n, 1, n, 0);
    } else if r == fpfd - 1 {
      QuotientIs(n + 1, fpfd, q + 1, 0);
    } else {
      QuotientIs(n + 1, fpfd, q, r + 1);
    }
  }

  /** 2 200 008 000 Hz in steps of 10 kHz from a 25 MHz phase detector: a remainder of more than
      half is rounded down. */
  lemma RoundsDown()
    ensures var n := 2200008000 * 2500;
            Steps(2200008000, 2500, 25000000) == n / 25000000 && !Nearest(n / 25000000, n, 25000000)
  {
  }

  // ---- the setting ----

  /** What is stored of a number of steps: integer part (32 bits kept), and the fraction in
      lowest terms. */
  datatype Setting = Setting(integer: nat, fract: nat, mod: nat)

  function Store(steps: nat, mod: nat): Setting
    requires mod > 0
  {
    var fract := steps % mod;
    if fract == 0 then Setting(steps / mod % U32, 0, 1)
    else var g := Gcd(mod, fract); Setting(steps / mod % U32, fract / g, mod / g)
  }

  /** The factor by which the fraction was reduced. */
  function Factor(steps: nat, mod: nat): (g: nat)
    requires mod > 0
    ensures g > 0
  {
    if steps % mod == 0 then mod else Gcd(mod, steps % mod)
  }

  lemma FactorDivides(steps: nat, mod: nat)
    requires mod > 0
    ensures Divides(Factor(steps, mod), mod) && Divides(Factor(steps, mod), steps % mod)
  {
    if steps % mod == 0 {
      Multiple(1, mod);
      Multiple(0, mod);
    } else {
      GcdDivides(mod, steps % mod);
    }
  }

  /** The stored fraction is below one, has the value of the unreduced one, and no common
      divisor is left. */
  lemma StoredFraction(steps: nat, mod: nat, d: nat)
    requires mod > 0 && d > 0
    ensures var s := Store(steps, mod);
            && s.fract < s.mod <= mod
            && s.fract * mod == steps % mod * s.mod
            && (Divides(d, s.fract) && Divides(d, s.mod) ==> d == 1)
  {
    var s, g, fract := Store(steps, mod), Factor(steps, mod), steps % mod;
    FactorDivides(steps, mod);
    DivMod(mod, g);
    DivMod(fract, g);
    if fract != 0 {
      assert s.mod * g == mod && s.fract * g == fract;
      Reduced(s.fract, s.mod, g);
      if Divides(d, s.fract) && Divides(d, s.mod) { LowestTerms(mod, fract, d); }
    } else if Divides(d, 1) {
      DivMod(1, d);
      if d > 1 { QuotientIs(1, d, 0, 1); }
    }
  }

  lemma Reduced(fract: nat, mod: nat, g: nat)
    requires g > 0 && fract * g < mod * g
    ensures fract < mod <= mod * g && fract * (mod * g) == fract * g * mod
  {
    Unmultiply(fract, mod, g);
    AwayFromZero(fract - mod, g);
    AwayFromZero(g - 1, mod);
  }

  lemma DividesTwice(n: nat, g: nat, d: nat)
    requires g > 0 && d > 0 && Divides(g, n) && Divides(d, n / g)
    ensures d * g > 0 && Divides(d * g, n)
  {
    AwayFromZero(d, g);
    DivMod(n, g);
    DivMod(n / g, d);
    var m := n / g / d;
    assert n == m * d * g == m * (d * g);
    Multiple(m, d * g);
  }

  lemma OnlyOne(g: nat, d: nat)
    requires g > 0 && d > 0 && d * g > 0 && Divides(d * g, g)
    ensures d == 1
  {
    DivMod(g, d * g);
    AwayFromZero(g / (d * g), d * g);
    Unmultiply(d, 1, g);
    AwayFromZero(d - 1, g);
  }

  lemma LowestTerms(mod: nat, fract: nat, d: nat)
    requires mod > 0 && fract > 0 && d > 0
    requires Divides(d, mod / Gcd(mod, fract)) && Divides(d, fract / Gcd(mod, fract))
    ensures d == 1
  {
    var g := Gcd(mod, fract);
    GcdDivides(mod, fract);
    DividesTwice(mod, g, d);
    DividesTwice(fract, g, d);
    GcdGreatest(mod, fract, d * g);
    OnlyOne(g, d);
  }

  // ---- what is reported ----

  /** The frequency of a count of fractional steps, of which `div` make up `fpfd`. */
  function Value(count: nat, fpfd: nat, div: nat): nat
    requires div > 0
  {
    count * fpfd / div
  }

  /** The whole divisor of the phase detector frequency. */
  function Divisor(mod: nat, k: nat): (d: nat)
    requires mod > 0
    ensures d > 0
  {
    AwayFromZero(mod, Pow2(k));
    mod * Pow2(k)
  }

  /** `adf4350_show`: the product and sum wrap at 32 bits. */
  function Report(s: Setting, fpfd: nat, k: nat): nat
    requires s.mod > 0
  {
    Value(Recombined(s), fpfd, Divisor(s.mod, k))
  }

  function Recombined(s: Setting): nat { (s.integer * s.mod + s.fract) % U32 }

  /** The whole number of fractional steps fits the 32 bits it is recombined in. */
  predicate Recombines(steps: nat, mod: nat)
    requires mod > 0
  {
    steps / Factor(steps, mod) < U32
  }

  lemma ReducedParts(fract: nat, mod: nat, g: nat)
    requires mod > 0 && g > 0 && Divides(g, mod) && Divides(g, fract)
    ensures mod / g > 0 && mod / g * g == mod && fract / g * g == fract
  {
    DivMod(mod, g);
    DivMod(fract, g);
    Positive(mod, g);
  }

  lemma StoredParts(steps: nat, mod: nat)
    requires mod > 0
    ensures var s, g := Store(steps, mod), Factor(steps, mod);
            s.mod > 0 && s.mod * g == mod && s.fract * g == steps % mod && s.integer == steps / mod % U32
  {
    var fract, q := steps % mod, steps / mod;
    DivMod(steps, mod);
    FactorDivides(steps, mod);
    ReducedParts(fract, mod, Factor(steps, mod));
    if fract == 0 {
      assert Store(steps, mod) == Setting(q % U32, 0, 1);
    } else {
      var g := Gcd(mod, fract);
      assert Store(steps, mod) == Setting(q % U32, fract / g, mod / g);
    }
  }

  /** The stored numbers recombine to the reduced steps, but for the cut of the integer part. */
  lemma StoredSteps(steps: nat, mod: nat)
    requires mod > 0
    ensures var s, g := Store(steps, mod), Factor(steps, mod);
            s.mod > 0 && s.mod * g == mod && steps / g * g == steps
            && s.integer == steps / mod % U32 && steps / mod * s.mod + s.fract == steps / g
  {
    var s, g := Store(steps, mod), Factor(steps, mod);
    StoredParts(steps, mod);
    DivMod(steps, mod);
    Recombine(steps / mod, s.mod, s.fract, g);
    Multiple(steps / mod * s.mod + s.fract, g);
  }

  lemma Positive(mod: nat, g: nat)
    requires mod > 0 && g > 0 && Divides(g, mod)
    ensures mod / g > 0
  {
    DivMod(mod, g);
  }

  lemma Recombine(i: nat, m: nat, f: nat, g: nat)
    ensures (i * m + f) * g == i * (m * g) + f * g
  {
  }

  /** Multiplying both sides of a fraction does not change its floor. */
  lemma ScaledFloor(a: nat, b: nat, g: nat)
    requires b > 0 && g > 0
    ensures b * g > 0 && a * g / (b * g) == a / b
  {
    AwayFromZero(b, g);
    DivMod(a, b);
    var q, r := a / b, a % b;
    assert a * g == q * (b * g) + r * g;
    Unmultiply(b, r, g);
    AwayFromZero(b - r, g);
    QuotientIs(a * g, b * g, q, r * g);
  }

  lemma WrapInside(i: nat, x: nat, m: nat, f: nat, w: nat)
    requires i == x % U32 && x * m + f == w
    ensures (i * m + f) % U32 == w % U32
  {
    DivMod(x, U32);
    DivMod(i * m + f, U32);
    var q := x / U32 * m + (i * m + f) / U32;
    assert x * m == x / U32 * m * U32 + i * m;
    QuotientIs(w, U32, q, (i * m + f) % U32);
  }

  lemma RecombinedAs(s: Setting, x: nat, w: nat)
    requires s.integer == x % U32 && x * s.mod + s.fract == w
    ensures Recombined(s) == w % U32
  {
    WrapInside(s.integer, x, s.mod, s.fract, w);
  }

  /** The report counts the reduced steps, modulo 2^32. */
  lemma ReportIs(steps: nat, mod: nat, fpfd: nat, k: nat)
    requires mod > 0
    ensures var s, g := Store(steps, mod), Factor(steps, mod);
            s.mod > 0 && s.mod * g == mod && steps / g * g == steps
            && Report(s, fpfd, k) == Value(steps / g % U32, fpfd, Divisor(s.mod, k))
  {
    StoredSteps(steps, mod);
    RecombinedAs(Store(steps, mod), steps / mod, steps / Factor(steps, mod));
  }

  /** Within `fpfd / d + 1` of the request. */
  predicate Within(report: nat, freq: nat, d: nat, fpfd: nat) {
    freq * d - (fpfd + d) <= report * d <= freq * d + d
  }

  /** The steps stand for the request, less a remainder. */
  lemma StepsRemainder(freq: nat, mod: nat, k: nat, fpfd: nat)
    requires fpfd > 0 && mod > 0
    ensures var covered := Steps(freq * Pow2(k), mod, fpfd) * fpfd;
            freq * Divisor(mod, k) - fpfd < covered <= freq * Divisor(mod, k) + 1
  {
    var n := freq * Pow2(k) * mod;
    Associate(freq, Pow2(k), mod);
    DivMod(n + (if fpfd > 1 then 1 else 0), fpfd);
  }

  lemma Associate(a: nat, b: nat, c: nat)
    ensures a * b * c == a * (c * b) == a * (b * c)
  {
  }

  lemma FloorWithin(covered: nat, freq: nat, d: nat, fpfd: nat)
    requires d > 0 && freq * d - fpfd < covered <= freq * d + 1
    ensures Within(covered / d, freq, d, fpfd)
  {
    DivMod(covered, d);
  }

  lemma SmallDivisor(mod: nat, k: nat)
    requires 0 < mod <= MAX_MODULUS && k <= 6
    ensures Divisor(mod, k) <= 262080
  {
    SixtyFour(k);
    Monotone(mod, MAX_MODULUS, Pow2(k));
  }

  lemma SixtyFour(k: nat)
    requires k <= 6
    ensures Pow2(k) <= 64
  {
    assert Pow2(3) == 8 && Pow2(6) == 8 * Pow2(3);
    if k == 6 {} else if k == 5 {} else if k == 4 {} else {}
  }

  lemma LostSteps(kept: nat, w: nat, g: nat, fpfd: nat)
    requires kept <= w - U32 && g > 0 && fpfd > 0
    ensures kept * fpfd * g <= w * g * fpfd - U32 * fpfd
  {
    Monotone(kept, w - U32, fpfd * g);
    Associate(kept, fpfd, g);
    Associate(w, g, fpfd);
    Unmultiply(w, U32, fpfd * g);
    AwayFromZero(g, fpfd);
    Monotone(fpfd, fpfd * g, U32);
  }

  /** A lost multiple of 2^32 steps takes the report out of its bound. */
  lemma WrappedOutside(w: nat, g: nat, d: nat, freq: nat, fpfd: nat)
    requires d > 0 && g > 0 && fpfd > 0 && w >= U32 && d * g <= 262080
    requires w * g * fpfd <= freq * (d * g) + 1
    ensures !Within(Value(w % U32, fpfd, d), freq, d * g, fpfd)
  {
    var kept := w % U32;
    var report := Value(kept, fpfd, d);
    DivMod(w, U32);
    AwayFromZero(w / U32, U32);
    LostSteps(kept, w, g, fpfd);
    DivMod(kept * fpfd, d);
    Monotone(report * d, kept * fpfd, g);
    Associate(report, d, g);
  }

  lemma KeptWithin(w: nat, g: nat, d: nat, freq: nat, fpfd: nat)
    requires d > 0 && g > 0 && w < U32
    requires freq * (d * g) - fpfd < w * g * fpfd <= freq * (d * g) + 1
    ensures Within(Value(w % U32, fpfd, d), freq, d * g, fpfd)
  {
    QuotientIs(w, U32, 0, w);
    ScaledFloor(w * fpfd, d, g);
    Regroup(w, fpfd, g);
    FloorWithin(w * g * fpfd, freq, d * g, fpfd);
  }

  /** The frequency reported after a setting is within `fpfd / (mod * 2^k) + 1` of the request if
      and only if the reduced number of fractional steps fits 32 bits. */
  lemma ReportWithinIff(freq: nat, k: nat, mod: nat, fpfd: nat)
    requires 0 < mod <= MAX_MODULUS && k <= 6 && fpfd > 0
    ensures var steps := Steps(freq * Pow2(k), mod, fpfd);
            Store(steps, mod).mod > 0 &&
            (Within(Report(Store(steps, mod), fpfd, k), freq, Divisor(mod, k), fpfd) <==> Recombines(steps, mod))
  {
    var steps := Steps(freq * Pow2(k), mod, fpfd);
    var s, g := Store(steps, mod), Factor(steps, mod);
    ReportIs(steps, mod, fpfd, k);
    StepsRemainder(freq, mod, k, fpfd);
    SmallDivisor(mod, k);
    DivisorFactor(mod, s.mod, g, k);
    WithinIff(steps, steps / g, g, Divisor(s.mod, k), Divisor(mod, k), freq, fpfd);
  }

  lemma DivisorFactor(mod: nat, m: nat, g: nat, k: nat)
    requires mod > 0 && m > 0 && m * g == mod
    ensures Divisor(mod, k) == Divisor(m, k) * g
  {
    Regroup(m, Pow2(k), g);
  }

  lemma WithinIff(steps: nat, w: nat, g: nat, d: nat, whole: nat, freq: nat, fpfd: nat)
    requires d > 0 && g > 0 && fpfd > 0 && whole == d * g <= 262080 && steps == w * g
    requires freq * whole - fpfd < steps * fpfd <= freq * whole + 1
    ensures Within(Value(w % U32, fpfd, d), freq, whole, fpfd) <==> w < U32
  {
    if w < U32 { KeptWithin(w, g, d, freq, fpfd); } else { WrappedOutside(w, g, d, freq, fpfd); }
  }

  /** With a channel spacing of at least 2 Hz it always does. */
  lemma WideSpacingRecombines(freq: nat, fpfd: nat, chspc: nat)
    requires freq <= 4400000000 && chspc >= 2 && fpfd >= chspc
    ensures fpfd / chspc > 0 && Recombines(Steps(freq, fpfd / chspc, fpfd), fpfd / chspc)
  {
    var mod := fpfd / chspc;
    DivMod(fpfd, chspc);
    Monotone(2, chspc, mod);
    FewSteps(freq, mod, fpfd);
    QuotientAtMost(Steps(freq, mod, fpfd), Factor(Steps(freq, mod, fpfd), mod));
  }

  lemma QuotientAtMost(n: nat, d: nat)
    requires d > 0
    ensures n / d <= n
  {
    DivMod(n, d);
    Monotone(1, d, n / d);
  }

  lemma FewSteps(freq: nat, mod: nat, fpfd: nat)
    requires 0 < 2 * mod <= fpfd
    ensures Steps(freq, mod, fpfd) <= freq / 2 + 1
  {
    Monotone(2 * mod, fpfd, freq);
    var steps := Steps(freq, mod, fpfd);
    DivMod(freq * mod + 1, fpfd);
    assert 2 * (freq * mod) <= freq * fpfd;
    Unmultiply(2 * steps, freq, fpfd);
    AwayFromZero(2 * steps - freq - 1, fpfd);
    assert 2 * (steps * fpfd) <= freq * fpfd + 2;
  }

  /** With a spacing of 1 Hz a step is 1 Hz, and the reduced request itself must fit. */
  lemma UnitSpacingSteps(freq: nat, fpfd: nat)
    requires fpfd > 0
    ensures Steps(freq, fpfd, fpfd) == freq
  {
    QuotientIs(freq * fpfd + (if fpfd > 1 then 1 else 0), fpfd, freq, if fpfd > 1 then 1 else 0);
  }

  /** 4 399 999 999 Hz in steps of 1 Hz is reported as 105 032 703 Hz. */
  lemma ReportWraps()
    ensures var s := Store(Steps(4399999999, 4000, 4000), 4000);
            s.mod > 0 && Report(s, 4000, 0) == 105032703
  {
    UnitSpacingSteps(4399999999, 4000);
    assert Gcd(4000, 3999) == Gcd(3999, 1) == Gcd(1, 0) == 1;
    assert Store(4399999999, 4000) == Setting(1099999, 3999, 4000);
  }

  lemma Regroup(a: nat, b: nat, g: nat)
    ensures a * b * g == a * g * b
  {
  }
}
