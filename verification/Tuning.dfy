/** Tuning arithmetic: the divider search and fractional-N rounding of `set_freq`
    (sw/langford_driver/libs/adf4351_regs.hpp:352-495) over exact reals. */
module Tuning {
  import opened Words
  import opened SynthRegs

  const MIN_OUT_FREQ: real := 34375000.0
  const MAX_OUT_FREQ: real := 4400000000.0
  const MIN_VCO_FREQ: real := 2200000000.0
  const MAX_REF_FREQ: real := 250000000.0
  const DESIGN_PFD: real := 31250000.0
  const MAX_BAND_SELECT: real := 125000.0
  const MAX_MODULUS: nat := 4095

  // ---- real arithmetic ----

  lemma DivTimes(a: real, b: real)
    requires b > 0.0
    ensures a / b * b == a
  {
  }

  lemma DivBound(a: real, b: real, c: real)
    requires b > 0.0
    ensures a / b <= c <==> a <= c * b
  {
    DivTimes(a, b);
    MulOrder(a / b, c, b);
  }

  lemma MulOrder(a: real, b: real, c: real)
    requires c > 0.0
    ensures a <= b <==> a * c <= b * c
  {
    if a <= b { MulMono(a, b, c); } else { MulMonoStrict(b, a, c); }
  }

  lemma MulMono(a: real, b: real, c: real)
    requires a <= b && c >= 0.0
    ensures a * c <= b * c
  {
  }

  lemma MulMonoStrict(a: real, b: real, c: real)
    requires a < b && c > 0.0
    ensures a * c < b * c
  {
  }

  function Abs(x: real): real { if x < 0.0 then -x else x }

  /** C's `round` for arguments that are not negative. */
  function Round(x: real): int
    requires x >= 0.0
  {
    (x + 0.5).Floor
  }

  function FracPart(x: real): (r: real)
    ensures 0.0 <= r < 1.0
  {
    x - x.Floor as real
  }

  /** The numerator chosen for the fractional part of a divider ratio. */
  function FracOf(ratio: real, mod: int): int
    requires mod > 0
  {
    var x := FracPart(ratio) * mod as real;
    FracNonNegative(ratio, mod);
    Round(x)
  }

  lemma FracNonNegative(ratio: real, mod: int)
    requires mod > 0
    ensures 0.0 <= FracPart(ratio) * mod as real
    ensures FracPart(ratio) * mod as real < mod as real
  {
    MulMono(0.0, FracPart(ratio), mod as real);
    MulMonoStrict(FracPart(ratio), 1.0, mod as real);
  }

  /** The numerator is nearest, and it can equal the modulus, which the chip does not allow:
      exactly when the fractional part is within half a step of the next integer. */
  lemma FracNearest(ratio: real, mod: int)
    requires mod > 0
    ensures 0 <= FracOf(ratio, mod) <= mod
    ensures Abs(FracOf(ratio, mod) as real - FracPart(ratio) * mod as real) <= 0.5
    ensures FracOf(ratio, mod) == mod <==> FracPart(ratio) * mod as real >= mod as real - 0.5
  {
    FracNonNegative(ratio, mod);
    RoundNearest(FracPart(ratio) * mod as real, mod);
  }

  lemma RoundNearest(x: real, m: int)
    requires 0.0 <= x < m as real
    ensures 0 <= Round(x) <= m && Abs(Round(x) as real - x) <= 0.5
    ensures Round(x) == m <==> x >= m as real - 0.5
  {
  }

  /** 2 218 625 000 Hz with a 31.25 MHz phase detector and modulus 125 asks for FRAC = MOD. */
  lemma FracReachesModulus()
    ensures FracOf(2218625000.0 / DESIGN_PFD, 125) == 125
  {
    assert 2218625000.0 / DESIGN_PFD == 70.996;
    assert (70.996 as real).Floor == 70;
  }

  /** The frequency a setting stands for. */
  function Output(n: nat, frac: nat, mod: nat, ref: real, d: nat, r: nat, t: nat, rfDiv: nat): real
    requires mod > 0 && r > 0 && rfDiv > 0
  {
    (n as real + frac as real / mod as real) * ref * (1 + d) as real / (r * (1 + t)) as real / rfDiv as real
  }

  lemma ScaleUp(a: real, b: real, pfd: real, div: real)
    requires a <= b && pfd > 0.0 && div > 0.0
    ensures a * pfd / div <= b * pfd / div
  {
    MulMono(a, b, pfd);
    DivMono(a * pfd, b * pfd, div);
  }

  lemma ScaleNegated(a: real, pfd: real, div: real)
    requires div > 0.0
    ensures -a * pfd / div == -(a * pfd / div)
  {
    DivTimes(a * pfd, div);
    assert -a * pfd == -(a * pfd) == -(a * pfd / div) * div;
    DivUnique(-a * pfd, -(a * pfd / div), div);
  }

  lemma ScaleError(e: real, bound: real, pfd: real, div: real)
    requires Abs(e) <= bound && pfd > 0.0 && div > 0.0
    ensures Abs(e * pfd / div) <= bound * pfd / div
  {
    ScaleUp(e, bound, pfd, div);
    ScaleUp(-e, bound, pfd, div);
    ScaleNegated(e, pfd, div);
  }

  lemma DivMono(a: real, b: real, c: real)
    requires a <= b && c > 0.0
    ensures a / c <= b / c
  {
    DivBound(a, c, b / c);
    DivTimes(b, c);
  }

  // ---- the search ----

  function Pfd(ref: real, d: nat, r: nat): real
    requires r > 0
  {
    ref * (1 + d) as real / r as real
  }

  /** The divider ratio that turns a phase detector frequency into a VCO frequency. */
  function Quotient(vco: real, pfd: real): real
    requires pfd > 0.0
  {
    vco / pfd
  }

  /** The frequency of the band select clock. */
  function BandClock(pfd: real, bs: nat): real
    requires bs > 0
  {
    pfd / bs as real
  }

  function Doubler(ref: real): nat { if ref <= 12500000.0 then 1 else 0 }

  /** The smallest integer divider the prescaler needed for a VCO frequency allows. */
  function MinDivider(vco: real): nat { if vco > 3000000000.0 then 75 else 23 }

  /** The VCO frequency after `k` doublings of the target. */
  function VcoOf(target: real, k: nat): real { target * Pow2(k) as real }

  lemma VcoDoubles(target: real, k: nat)
    ensures VcoOf(target, k + 1) == 2.0 * VcoOf(target, k)
  {
  }

  /** The least number of doublings that brings a legal target into the VCO's range. */
  predicate VcoChoice(target: real, vco: real, rfDiv: nat, rfReg: nat) {
    && rfReg <= 6 && rfDiv == Pow2(rfReg) && vco == VcoOf(target, rfReg)
    && MIN_VCO_FREQ <= vco <= MAX_OUT_FREQ
    && (rfReg > 0 ==> VcoOf(target, rfReg - 1) < MIN_VCO_FREQ)
  }

  /** The least reference divider that brings the phase detector into its design range, the
      least band select divider for it, and the integer part of the ratio. */
  predicate DividerChoice(ref: real, vco: real, r: nat, bs: nat, n: int, pfd: real) {
    && 1 <= r <= 8 && pfd == Pfd(ref, Doubler(ref), r) && 0.0 < pfd <= DESIGN_PFD
    && (forall r' :: 1 <= r' < r ==> Pfd(ref, Doubler(ref), r') > DESIGN_PFD)
    && 1 <= bs <= 250 && BandClock(pfd, bs) <= MAX_BAND_SELECT
    && (forall b :: 1 <= b < bs ==> BandClock(pfd, b) > MAX_BAND_SELECT)
    && n == Quotient(vco, pfd).Floor && n >= MinDivider(vco)
  }

  lemma PfdPositive(ref: real, r: nat)
    requires 0.0 < ref && r > 0
    ensures Pfd(ref, Doubler(ref), r) > 0.0
  {
    var num := ref * (1 + Doubler(ref)) as real;
    MulMonoStrict(0.0, ref, (1 + Doubler(ref)) as real);
    DivTimes(num, r as real);
    if num / r as real <= 0.0 { MulMono(num / r as real, 0.0, r as real); }
  }

  lemma EightIsEnough(ref: real)
    requires 0.0 < ref <= MAX_REF_FREQ
    ensures Pfd(ref, Doubler(ref), 8) <= DESIGN_PFD
  {
    DivBound(ref * (1 + Doubler(ref)) as real, 8.0, DESIGN_PFD);
  }

  lemma BandSelectFits(pfd: real)
    requires pfd <= DESIGN_PFD
    ensures BandClock(pfd, 250) <= MAX_BAND_SELECT
  {
  }

  /** Below the design limit no legal VCO frequency asks for too small a divider. */
  lemma DividerLargeEnough(vco: real, pfd: real)
    requires MIN_VCO_FREQ <= vco && 0.0 < pfd
    ensures pfd <= DESIGN_PFD ==> Quotient(vco, pfd).Floor >= MinDivider(vco)
  {
    var m := MinDivider(vco) as real;
    DivTimes(vco, pfd);
    MulOrder(m, vco / pfd, pfd);
    if pfd <= DESIGN_PFD { assert m * pfd <= vco; }
  }

  // ---- what the search must find ----

  /** How often a legal target has to be doubled. */
  function LeastDoublings(target: real): nat {
    if target >= 2200000000.0 then 0
    else if target >= 1100000000.0 then 1
    else if target >= 550000000.0 then 2
    else if target >= 275000000.0 then 3
    else if target >= 137500000.0 then 4
    else if target >= 68750000.0 then 5
    else 6
  }

  /** What a reference has to be divided by. */
  function LeastDivider(ref: real): (r: nat)
    requires ref > 0.0
    ensures r > 0
  {
    -(-(ref * (1 + Doubler(ref)) as real / DESIGN_PFD)).Floor
  }

  /** The phase detector frequency for a reference. */
  function PhaseDetectorFor(ref: real): (pfd: real)
    requires ref > 0.0
    ensures pfd > 0.0
  {
    PfdPositive(ref, LeastDivider(ref));
    Pfd(ref, Doubler(ref), LeastDivider(ref))
  }

  lemma LeastDoublingsIs(target: real, k: nat)
    requires VcoChoice(target, VcoOf(target, k), Pow2(k), k) && MIN_OUT_FREQ <= target
    ensures LeastDoublings(target) == k
  {
    SmallPowers();
  }

  /** The search ends at the least divider. */
  lemma LeastDividerIs(ref: real, r: nat)
    requires ref > 0.0 && r > 0 && Pfd(ref, Doubler(ref), r) <= DESIGN_PFD
    requires r > 1 ==> Pfd(ref, Doubler(ref), r - 1) > DESIGN_PFD
    ensures LeastDivider(ref) == r
  {
    var num := ref * (1 + Doubler(ref)) as real;
    DivBound(num, r as real, DESIGN_PFD);
    if r > 1 { DivBound(num, (r - 1) as real, DESIGN_PFD); }
  }

  /** The ratio between a VCO and a phase detector frequency fits the `int` it is converted to. */
  predicate Convertible(vco: real, pfd: real) { vco < 2147483648.0 * pfd }

  lemma ConvertibleRatio(vco: real, pfd: real)
    requires pfd > 0.0
    ensures Convertible(vco, pfd) <==> Quotient(vco, pfd).Floor < 0x8000_0000
  {
    DivTimes(vco, pfd);
    MulOrder(2147483648.0, Quotient(vco, pfd), pfd);
  }

  /** At the first divider in the design range the ratio is large enough, and an `int` if it can be. */
  lemma RatioFound(ref: real, vco: real, r: nat, pfd: real)
    requires 0.0 < ref && MIN_VCO_FREQ <= vco && Convertible(vco, PhaseDetectorFor(ref))
    requires 1 <= r <= 8 && pfd == Pfd(ref, Doubler(ref), r)
    requires forall r' :: 1 <= r' < r ==> Pfd(ref, Doubler(ref), r') > DESIGN_PFD
    ensures pfd > 0.0
    ensures pfd <= DESIGN_PFD ==> MinDivider(vco) <= Quotient(vco, pfd).Floor < 0x8000_0000
  {
    PfdPositive(ref, r);
    if pfd <= DESIGN_PFD {
      LeastDividerIs(ref, r);
      ConvertibleRatio(vco, pfd);
      DividerLargeEnough(vco, pfd);
    }
  }

  /** Lines 378-383. */
  method FindVco(target: real) returns (vco: real, rfDiv: nat, rfReg: nat)
    requires MIN_OUT_FREQ <= target <= MAX_OUT_FREQ
    ensures VcoChoice(target, vco, rfDiv, rfReg)
  {
    vco, rfDiv, rfReg := target, 1, 0;
    while vco < MIN_VCO_FREQ
      invariant rfReg <= 6 && rfDiv == Pow2(rfReg) && vco == VcoOf(target, rfReg) && vco <= MAX_OUT_FREQ
      invariant rfReg > 0 ==> VcoOf(target, rfReg - 1) < MIN_VCO_FREQ
      decreases 6 - rfReg
    {
      SixDoublings(target, rfReg);
      VcoDoubles(target, rfReg);
      vco := vco * 2.0;
      rfDiv := rfDiv * 2;
      rfReg := rfReg + 1;
    }
  }

  /** 64 times the lowest legal target is exactly the lowest VCO frequency. */
  lemma SixDoublings(target: real, k: nat)
    requires MIN_OUT_FREQ <= target && VcoOf(target, k) < MIN_VCO_FREQ && k <= 6
    ensures k < 6
  {
    if k == 6 {
      assert Pow2(6) == 64 by { assert Pow2(2) == 4; assert Pow2(4) == 16; }
      MulMono(MIN_OUT_FREQ, target, 64.0);
      assert false;
    }
  }

  /** Lines 409-428: the nested search. Its test on `n` never rejects, and the inner loop
      always finds a divider, so the outer one ends at the first `r` in the design range. */
  method FindDividers(ref: real, vco: real) returns (r: nat, bs: nat, n: int, pfd: real)
    requires 0.0 < ref <= MAX_REF_FREQ && MIN_VCO_FREQ <= vco && Convertible(vco, PhaseDetectorFor(ref))
    ensures DividerChoice(ref, vco, r, bs, n, pfd) && n < 0x8000_0000
  {
    var d := Doubler(ref);
    r, bs, n, pfd := 1, 0, 0, 0.0;
    EightIsEnough(ref);
    while r <= 1023
      invariant 1 <= r <= 8
      invariant forall r' :: 1 <= r' < r ==> Pfd(ref, d, r') > DESIGN_PFD
      decreases 1023 - r
    {
      pfd := ref * (1 + d) as real / (r * (1 + 0)) as real;
      assert pfd == Pfd(ref, d, r);
      RatioFound(ref, vco, r, pfd);
      n := Quotient(vco, pfd).Floor;
      if pfd > DESIGN_PFD || n < MinDivider(vco) {
        r := r + 1;
        continue;
      }
      BandSelectFits(pfd);
      bs := 1;
      while BandClock(pfd, bs) > MAX_BAND_SELECT
        invariant 1 <= bs <= 250
        invariant forall b :: 1 <= b < bs ==> BandClock(pfd, b) > MAX_BAND_SELECT
        decreases 250 - bs
      {
        bs := bs + 1;
      }
      return;
    }
  }

  // ---- settings in registers ----

  /** The numbers a synthesiser's fields hold that decide its frequency. */
  datatype Dividers = Dividers(
    integer: nat, frac: nat, mod: nat, doubler: nat, r: nat, by2: nat,
    bandSelect: nat, rfSelect: nat)

  function DividersOf(s: Synth): Dividers {
    Dividers(Number(s.integer), Number(s.frac), Number(s.mod), Number(s.referenceDoubler), Number(s.rCounter),
             Number(s.referenceDivideBy2), Number(s.bandSelectClockDiv), Number(s.rfDividerSelect))
  }

  /** The frequency a chip with these dividers and this reference puts out. */
  function ChipFrequency(v: Dividers, ref: real): real
    requires v.mod > 0 && v.r > 0
  {
    Output(v.integer, v.frac, v.mod, ref, v.doubler, v.r, v.by2, Pow2(v.rfSelect))
  }

  /** The phase detector frequency of these dividers. */
  function PfdOf(v: Dividers, ref: real): real
    requires v.r > 0
  {
    Pfd(ref, v.doubler, v.r * (1 + v.by2))
  }

  /** The dividers are the ones the search must find for this target: the integer part is kept
      to 16 bits, everything else exactly. */
  predicate TunedTo(v: Dividers, target: real, ref: real, mod: nat) {
    && v.mod == mod > 0 && v.r > 0
    && v.doubler == Doubler(ref)
    && v.by2 == (if v.r * (1 + v.by2) % 2 == 0 then 1 else 0)
    && VcoChoice(target, VcoOf(target, v.rfSelect), Pow2(v.rfSelect), v.rfSelect)
    && PfdOf(v, ref) > 0.0
    && var ratio := Quotient(VcoOf(target, v.rfSelect), PfdOf(v, ref));
    && DividerChoice(ref, VcoOf(target, v.rfSelect), v.r * (1 + v.by2), v.bandSelect, ratio.Floor, PfdOf(v, ref))
    && v.integer == ratio.Floor % 0x10000
    && v.frac == FracOf(ratio, mod)
  }

  /** The integer part of the ratio the target needs fits its 16-bit field. */
  predicate IntegerFits(v: Dividers, target: real, ref: real)
    requires v.r > 0 && PfdOf(v, ref) > 0.0
  {
    Quotient(VcoOf(target, v.rfSelect), PfdOf(v, ref)).Floor < 0x10000
  }

  /** (x * ref * k) / r == x * pfd. */
  lemma ScaledPfd(x: real, ref: real, k: real, r: real)
    requires r > 0.0
    ensures x * ref * k / r == x * (ref * k / r)
  {
    var p := ref * k / r;
    DivTimes(ref * k, r);
    assert x * ref * k == x * (p * r) == (x * p) * r;
    DivUnique(x * ref * k, x * p, r);
  }

  lemma DivUnique(a: real, q: real, b: real)
    requires b > 0.0 && a == q * b
    ensures a / b == q
  {
  }

  /** An error `e`, counted in `m`-ths, as it comes out of the divider. */
  lemma ErrorOver(e: real, x: real, q: real, m: real, pfd: real, div: real, w: real)
    requires m > 0.0 && div > 0.0 && w > 0.0 && e == (x - q) * m && w == m * div
    ensures Quotient(e * pfd, w) == Quotient(x * pfd, div) - Quotient(q * pfd, div)
  {
    CancelFactor((x - q) * pfd, m, div);
    Reorder(x - q, m, pfd);
    Distribute(x, q, pfd);
    DivDifference(x * pfd, q * pfd, div);
  }

  lemma HalfOverProduct(pfd: real, m: real, div: real, w: real)
    requires m > 0.0 && div > 0.0 && w > 0.0 && w == m * div
    ensures 2.0 * m * div > 0.0 && Quotient(0.5 * pfd, w) == Quotient(pfd, 2.0 * m * div)
  {
    Associate(m, div);
    HalfOver(pfd, w);
  }

  lemma ErrorWithin(e: real, pfd: real, w: real)
    requires Abs(e) <= 0.5 && pfd > 0.0 && w > 0.0
    ensures Abs(Quotient(e * pfd, w)) <= Quotient(0.5 * pfd, w)
  {
    ScaleError(e, 0.5, pfd, w);
  }

  /** How far the output of a ratio `x` is from the target whose exact ratio is `q`. */
  lemma RatioError(x: real, q: real, m: real, pfd: real, div: real)
    requires m > 0.0 && pfd > 0.0 && div > 0.0 && Abs((x - q) * m) <= 0.5
    ensures 2.0 * m * div > 0.0
    ensures Abs(Quotient(x * pfd, div) - Quotient(q * pfd, div)) <= Quotient(pfd, 2.0 * m * div)
  {
    ProductPositive(m, div);
    RatioErrorOf((x - q) * m, x, q, m, pfd, div, m * div);
  }

  lemma ProductPositive(a: real, b: real)
    requires a > 0.0 && b > 0.0
    ensures a * b > 0.0
  {
    MulMonoStrict(0.0, a, b);
  }

  lemma RatioErrorOf(e: real, x: real, q: real, m: real, pfd: real, div: real, w: real)
    requires m > 0.0 && pfd > 0.0 && div > 0.0 && w > 0.0 && e == (x - q) * m && w == m * div && Abs(e) <= 0.5
    ensures 2.0 * m * div > 0.0
    ensures Abs(Quotient(x * pfd, div) - Quotient(q * pfd, div)) <= Quotient(pfd, 2.0 * m * div)
  {
    ErrorOver(e, x, q, m, pfd, div, w);
    HalfOverProduct(pfd, m, div, w);
    ErrorWithin(e, pfd, w);
    EndToEnd(Quotient(e * pfd, w), Quotient(x * pfd, div) - Quotient(q * pfd, div), Quotient(0.5 * pfd, w),
             Quotient(pfd, 2.0 * m * div));
  }

  lemma EndToEnd(a: real, b: real, c: real, d: real)
    requires a == b && c == d && Abs(a) <= c
    ensures Abs(b) <= d
  {
  }

  lemma Reorder(a: real, b: real, c: real)
    ensures a * b * c == a * c * b
  {
  }

  lemma Distribute(a: real, b: real, c: real)
    ensures (a - b) * c == a * c - b * c
  {
  }

  lemma Associate(a: real, b: real)
    ensures 2.0 * (a * b) == 2.0 * a * b
  {
  }

  lemma HalfOver(a: real, b: real)
    requires b > 0.0
    ensures 0.5 * a / b == a / (2.0 * b)
  {
    DivTimes(a, 2.0 * b);
    var h := a / (2.0 * b);
    assert 0.5 * a == h * b;
    DivUnique(0.5 * a, h, b);
  }

  lemma CancelFactor(a: real, m: real, div: real)
    requires m > 0.0 && div > 0.0
    ensures m * div > 0.0
    ensures a * m / (m * div) == a / div
  {
    MulMonoStrict(0.0, m, div);
    var q := a / div;
    DivTimes(a, div);
    assert a * m == q * (m * div);
    DivUnique(a * m, q, m * div);
  }

  lemma DivDifference(a: real, b: real, c: real)
    requires c > 0.0
    ensures (a - b) / c == a / c - b / c
  {
    DivTimes(a, c);
    DivTimes(b, c);
    assert (a / c - b / c) * c == a - b;
    DivUnique(a - b, a / c - b / c, c);
  }

  function Ratio(n: nat, frac: nat, mod: nat): real
    requires mod > 0
  {
    n as real + frac as real / mod as real
  }

  /** What a divider ratio makes of a phase detector frequency. */
  function Scaled(ratio: real, pfd: real, rfDiv: nat): real
    requires rfDiv > 0
  {
    ratio * pfd / rfDiv as real
  }

  /** Half the output change of one fractional step. */
  function HalfStep(pfd: real, mod: nat, rfDiv: nat): real
    requires mod > 0 && rfDiv > 0
  {
    pfd / (2.0 * mod as real * rfDiv as real)
  }

  lemma RatioNearest(q: real, mod: nat)
    requires mod > 0 && q >= 0.0
    ensures FracOf(q, mod) >= 0 && Abs((Ratio(q.Floor, FracOf(q, mod), mod) - q) * mod as real) <= 0.5
  {
    var f, m := FracOf(q, mod), mod as real;
    FracNearest(q, mod);
    DivTimes(f as real, m);
    Distribute(f as real / m, FracPart(q), m);
    assert Ratio(q.Floor, f, mod) - q == f as real / m - FracPart(q);
  }

  lemma OutputIs(n: nat, frac: nat, mod: nat, ref: real, d: nat, r: nat, t: nat, rfDiv: nat)
    requires mod > 0 && r > 0 && rfDiv > 0
    ensures Output(n, frac, mod, ref, d, r, t, rfDiv) == Scaled(Ratio(n, frac, mod), Pfd(ref, d, r * (1 + t)), rfDiv)
  {
    ScaledPfd(Ratio(n, frac, mod), ref, (1 + d) as real, (r * (1 + t)) as real);
  }

  lemma TargetIs(target: real, vco: real, pfd: real, rfDiv: nat)
    requires rfDiv > 0 && vco == target * rfDiv as real && pfd > 0.0
    ensures target == Scaled(Quotient(vco, pfd), pfd, rfDiv)
  {
    DivTimes(vco, pfd);
    DivUnique(vco, target, rfDiv as real);
  }

  lemma ScaledNear(x: real, q: real, mod: nat, pfd: real, rfDiv: nat)
    requires mod > 0 && pfd > 0.0 && rfDiv > 0 && Abs((x - q) * mod as real) <= 0.5
    ensures Abs(Scaled(x, pfd, rfDiv) - Scaled(q, pfd, rfDiv)) <= HalfStep(pfd, mod, rfDiv)
  {
    RatioError(x, q, mod as real, pfd, rfDiv as real);
  }

  /** A rounded setting is within half a fractional step of the target. */
  lemma OutputNearTarget(target: real, vco: real, rfDiv: nat, ref: real, d: nat, r: nat, t: nat, mod: nat, pfd: real)
    requires mod > 0 && r > 0 && rfDiv > 0 && vco >= 0.0 && pfd > 0.0
    requires vco == target * rfDiv as real && pfd == Pfd(ref, d, r * (1 + t))
    ensures Quotient(vco, pfd).Floor >= 0 && FracOf(Quotient(vco, pfd), mod) >= 0
    ensures Abs(Output(Quotient(vco, pfd).Floor, FracOf(Quotient(vco, pfd), mod), mod, ref, d, r, t, rfDiv) - target)
              <= HalfStep(pfd, mod, rfDiv)
  {
    var q := Quotient(vco, pfd);
    DivMono(0.0, vco, pfd);
    RatioNearest(q, mod);
    OutputIs(q.Floor, FracOf(q, mod), mod, ref, d, r, t, rfDiv);
    TargetIs(target, vco, pfd, rfDiv);
    ScaledNear(Ratio(q.Floor, FracOf(q, mod), mod), q, mod, pfd, rfDiv);
  }

  /** So the chip is within half a fractional step of the target, whenever the integer part
      fits its field. */
  lemma TunedNearTarget(v: Dividers, target: real, ref: real, mod: nat)
    requires TunedTo(v, target, ref, mod) && IntegerFits(v, target, ref)
    ensures Abs(ChipFrequency(v, ref) - target) <= HalfStep(PfdOf(v, ref), mod, Pow2(v.rfSelect))
  {
    OutputNearTarget(target, VcoOf(target, v.rfSelect), Pow2(v.rfSelect), ref, v.doubler, v.r, v.by2, mod,
                     PfdOf(v, ref));
  }
}
