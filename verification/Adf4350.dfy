/** The reference driver's `adf4350_set_freq` (sw/langford_driver/libs/reference/adf4350.c:117-223):
    the search for a setting, the register words and their transfer. */
module Adf4350 {
  import opened Options
  import opened Words
  import opened Division
  import opened Divisors
  import opened IntegerTuning
  import opened ShadowRegs

  const MAX_OUT_FREQ: nat := 4400000000
  const MIN_VCO_FREQ: nat := 2200000000
  const MAX_FREQ_45_PRESC: nat := 3000000000
  const MAX_FREQ_PFD: nat := 32000000
  const MAX_BANDSEL_CLK: nat := 125000
  const ADF4351_MIN_OUT_FREQ: nat := 34375000

  /** A reference counter value and the phase detector frequency it gives. */
  datatype Tuning = Tuning(r: nat, fpfd: nat)

  /** What is needed of `adf4350_tune_r_cnt`, which is not part of this model: it moves the 16-bit
      counter on until the phase detector frequency is in range. `None` is for a counter value
      after which no further one fits. */
  ghost predicate TunesReference(tune: nat -> Option<Tuning>) {
    forall c: nat :: tune(c).Some? ==> c < tune(c).value.r < 0x10000 && tune(c).value.fpfd <= MAX_FREQ_PFD
  }

  /** The modulus: how many channel steps make up the phase detector frequency. */
  function Modulus(fpfd: nat, chspc: nat): nat
    requires chspc > 0
  {
    fpfd / chspc
  }

  /** The integer part a phase detector frequency gives. */
  function IntegerPart(fpfd: nat, chspc: nat, vco: nat): nat
    requires 0 < chspc <= fpfd
  {
    AtLeastOne(fpfd, chspc);
    var mod := Modulus(fpfd, chspc);
    Steps(vco, mod, fpfd) / mod % U32
  }

  lemma AtLeastOne(fpfd: nat, chspc: nat)
    requires chspc > 0
    ensures fpfd >= chspc <==> Modulus(fpfd, chspc) > 0
  {
    DivMod(fpfd, chspc);
  }

  /** A tuning whose modulus the chip does not have is passed over; so is one whose integer part
      is too small. A zero modulus ends the search with a fault. */
  predicate PassedOver(t: Tuning, chspc: nat, vco: nat, mdiv: nat)
    requires chspc > 0
  {
    Modulus(t.fpfd, chspc) > MAX_MODULUS || (t.fpfd >= chspc && IntegerPart(t.fpfd, chspc, vco) < mdiv)
  }

  /** A VCO frequency and the integer part its request needs at least. */
  predicate InRange(vco: nat, mdiv: nat) {
    MIN_VCO_FREQ <= vco <= MAX_OUT_FREQ && (mdiv == 23 || (mdiv == 75 && vco > MAX_FREQ_45_PRESC))
  }

  /** What that comes to: the spacing is too fine for the modulus, or, in steps of 1 Hz from a phase
      detector at 1 Hz, the integer part wraps to less than its minimum. */
  predicate TooFine(t: Tuning, chspc: nat, vco: nat, mdiv: nat) {
    t.fpfd >= (MAX_MODULUS + 1) * chspc || (t.fpfd == 1 && chspc == 1 && U32 <= vco < U32 + mdiv)
  }

  lemma ModulusTooLarge(fpfd: nat, chspc: nat)
    requires chspc > 0
    ensures Modulus(fpfd, chspc) > MAX_MODULUS <==> fpfd >= (MAX_MODULUS + 1) * chspc
  {
    DivMod(fpfd, chspc);
    if Modulus(fpfd, chspc) > MAX_MODULUS { Monotone(MAX_MODULUS + 1, Modulus(fpfd, chspc), chspc); }
    if Modulus(fpfd, chspc) <= MAX_MODULUS { Monotone(Modulus(fpfd, chspc), MAX_MODULUS, chspc); }
  }

  /** From 2 Hz at the phase detector on, the integer part is always large enough. */
  lemma IntegerLargeEnough(vco: nat, mdiv: nat, mod: nat, fpfd: nat)
    requires InRange(vco, mdiv) && 0 < mod && 2 <= fpfd <= MAX_FREQ_PFD
    ensures mdiv <= Steps(vco, mod, fpfd) / mod < U32
  {
    var n := vco * mod + 1;
    DivMod(n, fpfd);
    DivMod(Steps(vco, mod, fpfd), mod);
    StepsBounds(vco, mdiv, mod, fpfd, n / fpfd);
    QuotientBounds(Steps(vco, mod, fpfd), mod, mdiv, U32);
  }

  lemma StepsBounds(vco: nat, mdiv: nat, mod: nat, fpfd: nat, q: nat)
    requires InRange(vco, mdiv) && 0 < mod && 2 <= fpfd <= MAX_FREQ_PFD
    requires q * fpfd <= vco * mod + 1 < q * fpfd + fpfd
    ensures mdiv * mod <= q < U32 * mod
  {
    Monotone(fpfd, MAX_FREQ_PFD, mdiv);
    Monotone(mdiv * fpfd, vco, mod);
    Regroup(mdiv, fpfd, mod);
    if q < mdiv * mod { Monotone(q + 1, mdiv * mod, fpfd); }
    if q >= U32 * mod {
      Monotone(2, fpfd, q);
      Monotone(vco, MAX_OUT_FREQ, mod);
    }
  }

  lemma Regroup(a: nat, b: nat, c: nat)
    ensures a * b * c == a * c * b
  {
  }

  lemma QuotientBounds(n: nat, d: nat, lo: nat, hi: nat)
    requires d > 0 && lo * d <= n < hi * d
    ensures lo <= n / d < hi
  {
    DivMod(n, d);
    if n / d < lo { Monotone(n / d + 1, lo, d); }
    if n / d >= hi { Monotone(hi, n / d, d); }
  }

  /** A tuning is passed over exactly if it is too fine. */
  lemma PassedOverIff(t: Tuning, chspc: nat, vco: nat, mdiv: nat)
    requires chspc > 0 && InRange(vco, mdiv) && t.fpfd <= MAX_FREQ_PFD
    ensures PassedOver(t, chspc, vco, mdiv) <==> TooFine(t, chspc, vco, mdiv)
  {
    ModulusTooLarge(t.fpfd, chspc);
    if t.fpfd >= chspc { IntegerTooSmallIff(t.fpfd, chspc, vco, mdiv); }
  }

  lemma IntegerTooSmallIff(fpfd: nat, chspc: nat, vco: nat, mdiv: nat)
    requires 0 < chspc <= fpfd <= MAX_FREQ_PFD && InRange(vco, mdiv)
    ensures IntegerPart(fpfd, chspc, vco) < mdiv <==> fpfd == 1 && chspc == 1 && U32 <= vco < U32 + mdiv
  {
    AtLeastOne(fpfd, chspc);
    if fpfd == 1 {
      OneHertz(vco);
    } else {
      IntegerLargeEnough(vco, mdiv, Modulus(fpfd, chspc), fpfd);
    }
  }

  lemma OneHertz(vco: nat)
    ensures IntegerPart(1, 1, vco) == vco % U32
  {
    assert Modulus(1, 1) == 1 && Steps(vco, 1, 1) == vco;
  }

  /** The first tuning from counter value `c` on that is not too fine. */
  function FirstKept(tune: nat -> Option<Tuning>, c: nat, chspc: nat, vco: nat, mdiv: nat): Option<Tuning>
    requires TunesReference(tune)
    decreases 0x10000 - c
  {
    match tune(c)
    case None => None
    case Some(t) => if TooFine(t, chspc, vco, mdiv) then FirstKept(tune, t.r, chspc, vco, mdiv) else Some(t)
  }

  /** The same once tuning `t` has been tried. */
  function KeptFrom(tune: nat -> Option<Tuning>, t: Tuning, chspc: nat, vco: nat, mdiv: nat): Option<Tuning>
    requires TunesReference(tune)
  {
    if TooFine(t, chspc, vco, mdiv) then FirstKept(tune, t.r, chspc, vco, mdiv) else Some(t)
  }

  datatype Platform = Platform(
    refDivFactor: nat, refDoubler: bool, refDiv2: bool,
    r2User: Word, r3User: Word, r4User: Word)

  // ---- register words ----

  /** The user's bits that reach registers 2, 3 and 4. */
  function R2UserBits(): Word { seq(BITS, i => 6 <= i <= 12 || 26 <= i <= 29) }
  function R3UserBits(): Word { seq(BITS, i => 3 <= i <= 14 || 16 <= i <= 18 || 21 <= i <= 23) }
  function R4UserBits(): Word { seq(BITS, i => 3 <= i <= 4 || 6 <= i <= 10) }

  function Flag(on: bool, off: nat): Word { Shl(Bit(on), off) }

  function Reg0(s: Setting): Word {
    Or(Shl(And(FromNumber(s.integer), Mask(16)), 15), Shl(And(FromNumber(s.fract), Mask(12)), 3))
  }

  function Reg1(s: Setting, prescaler: bool): Word {
    Or(Or(Shl(Mask(0), 15), Shl(And(FromNumber(s.mod), Mask(12)), 3)), Flag(prescaler, 27))
  }

  function Reg2(rCnt: nat, p: Platform): Word {
    Or(Or(Or(Or(Shl(FromNumber(rCnt), 14), Flag(true, 13)), Flag(p.refDoubler, 25)), Flag(p.refDiv2, 24)),
       And(p.r2User, R2UserBits()))
  }

  function Reg4(k: nat, band: nat, p: Platform): Word {
    Or(Or(Or(Or(Flag(true, 23), Shl(FromNumber(k), 20)), Shl(FromNumber(band), 12)), Flag(true, 5)),
       And(p.r4User, R4UserBits()))
  }

  lemma ShiftAligned(w: Word, n: nat)
    requires n >= 3
    ensures Aligned(Shl(w, n))
  {
  }

  lemma OrAligned(v: Word, w: Word)
    requires Aligned(v) && Aligned(w)
    ensures Aligned(Or(v, w))
  {
  }

  lemma UserAligned(w: Word)
    ensures Aligned(And(w, R2UserBits())) && Aligned(And(w, R3UserBits())) && Aligned(And(w, R4UserBits()))
  {
  }

  lemma LowRegistersAligned(s: Setting, prescaler: bool)
    ensures Aligned(Reg0(s)) && Aligned(Reg1(s, prescaler))
  {
    var int16, fract := And(FromNumber(s.integer), Mask(16)), And(FromNumber(s.fract), Mask(12));
    var mod := And(FromNumber(s.mod), Mask(12));
    ShiftAligned(int16, 15);
    ShiftAligned(fract, 3);
    OrAligned(Shl(int16, 15), Shl(fract, 3));
    ShiftAligned(Mask(0), 15);
    ShiftAligned(mod, 3);
    ShiftAligned(Bit(prescaler), 27);
    OrAligned(Shl(Mask(0), 15), Shl(mod, 3));
    OrAligned(Or(Shl(Mask(0), 15), Shl(mod, 3)), Flag(prescaler, 27));
  }

  lemma Reg2Aligned(rCnt: nat, p: Platform)
    ensures Aligned(Reg2(rCnt, p))
  {
    UserAligned(p.r2User);
  }

  lemma Reg4Aligned(k: nat, band: nat, p: Platform)
    ensures Aligned(Reg4(k, band, p))
  {
    UserAligned(p.r4User);
  }

  function Registers(s: Setting, prescaler: bool, rCnt: nat, k: nat, band: nat, p: Platform): (r: Six)
    ensures AllAligned(r)
  {
    LowRegistersAligned(s, prescaler);
    Reg2Aligned(rCnt, p);
    UserAligned(p.r3User);
    Reg4Aligned(k, band, p);
    ShiftAligned(Bit(true), 22);
    [Reg0(s), Reg1(s, prescaler), Reg2(rCnt, p), And(p.r3User, R3UserBits()), Reg4(k, band, p), Flag(true, 22)]
  }

  // ---- the band select divider ----

  /** `DIV_ROUND_UP` kept in 8 bits. */
  function BandDivider(fpfd: nat): nat { (fpfd + MAX_BANDSEL_CLK - 1) / MAX_BANDSEL_CLK % 256 }

  /** The stored divider keeps the band select clock in range, and is the least that does, if
      and only if the phase detector frequency is at most 31.875 MHz: 256 does not fit 8 bits. */
  lemma BandDividerRightIff(fpfd: nat)
    requires 0 < fpfd <= MAX_FREQ_PFD
    ensures var b := BandDivider(fpfd);
            fpfd <= b * MAX_BANDSEL_CLK && (b - 1) * MAX_BANDSEL_CLK < fpfd <==> fpfd <= 31875000
  {
    DivMod(fpfd + MAX_BANDSEL_CLK - 1, MAX_BANDSEL_CLK);
  }

  // ---- set_freq ----

  /** `Fault` is a division by zero, `Exhausted` a search that runs out of counter values. */
  datatype Result = Refused | Exhausted | Fault(rCnt: nat) | Done(ret: int, rCnt: nat)

  function MinInteger(freq: nat): nat { if freq > MAX_FREQ_45_PRESC then 75 else 23 }

  /** A request after `k` doublings. */
  function Doubled(freq: nat, k: nat): nat { freq * Pow2(k) }

  /** The least number of doublings that brings a request into the VCO's range. */
  predicate Doublings(freq: nat, k: nat) {
    k <= 6 && Doubled(freq, k) >= MIN_VCO_FREQ && (k > 0 ==> Doubled(freq, k - 1) < MIN_VCO_FREQ)
  }

  /** That number for a request in range. */
  function DoublingsFor(freq: nat): nat {
    if freq >= 2200000000 then 0
    else if freq >= 1100000000 then 1
    else if freq >= 550000000 then 2
    else if freq >= 275000000 then 3
    else if freq >= 137500000 then 4
    else if freq >= 68750000 then 5
    else 6
  }

  /** The VCO frequency for a request. */
  function VcoFor(freq: nat): nat { Doubled(freq, DoublingsFor(freq)) }

  lemma DoublingsAre(freq: nat, k: nat)
    requires Doublings(freq, k) && freq <= MAX_OUT_FREQ
    ensures k == DoublingsFor(freq) && InRange(VcoFor(freq), MinInteger(freq))
  {
    SmallPowers();
  }

  lemma DoubleAgain(freq: nat, k: nat)
    requires freq >= ADF4351_MIN_OUT_FREQ && k <= 6 && Doubled(freq, k) < MIN_VCO_FREQ
    ensures k < 6 && Doubled(freq, k + 1) == 2 * Doubled(freq, k)
  {
    assert Pow2(3) == 8;
    assert Pow2(6) == 64;
  }

  /** One synchronisation of these register words leads from `s` to `s'`. */
  predicate Loaded(s: State, regs: Six, good: Transfers, s': State, ret: int) {
    var next := Next(s, Load(regs), good);
    s' == next.0 && ret == (if next.1 then 0 else -1)
  }

  class Synthesiser {
    const minOutFreq: nat
    const pdata: Platform
    const cache: ShadowCache
    var chspc: nat
    var fpfd: nat
    var r0Fract: nat
    var r0Int: nat
    var r1Mod: nat
    var r4RfDivSel: nat

    constructor (minOutFreq: nat, pdata: Platform, cache: ShadowCache, chspc: nat)
      ensures this.minOutFreq == minOutFreq && this.pdata == pdata && this.cache == cache && this.chspc == chspc
    {
      this.minOutFreq, this.pdata, this.cache, this.chspc := minOutFreq, pdata, cache, chspc;
      fpfd, r0Fract, r0Int, r1Mod, r4RfDivSel := 0, 0, 0, 0, 0;
    }

    function Held(): Setting
      reads this
    {
      Setting(r0Int, r0Fract, r1Mod)
    }

    /** The register words of the fields. */
    function Image(prescaler: bool, rCnt: nat): Six
      reads this
    {
      Registers(Held(), prescaler, rCnt, r4RfDivSel, BandDivider(fpfd), pdata)
    }

    /** The fields hold the setting for a request: with the least doubling, a modulus of at most
        4095 channel steps, the rounded number of steps, and enough of an integer part. */
    predicate TunedTo(freq: nat)
      requires chspc > 0
      reads this
    {
      && Doublings(freq, r4RfDivSel)
      && 0 < Modulus(fpfd, chspc) <= MAX_MODULUS && 0 < fpfd <= MAX_FREQ_PFD
      && Held() == Store(Steps(Doubled(freq, r4RfDivSel), Modulus(fpfd, chspc), fpfd), Modulus(fpfd, chspc))
      && r0Int >= MinInteger(freq)
    }

    /** The frequency attribute of `adf4350_show`. */
    function Show(): nat
      requires r1Mod > 0
      reads this
    {
      Report(Held(), fpfd, r4RfDivSel)
    }

    /** What is shown while the fields are tuned to a request is within `fpfd / (mod * 2^k) + 1`
        of it exactly when the reduced number of fractional steps fits 32 bits, and always so
        from a channel spacing of 2 Hz on. */
    lemma ShowsRequest(freq: nat)
      requires chspc > 0 && freq <= MAX_OUT_FREQ && TunedTo(freq)
      ensures r1Mod > 0
      ensures Within(Show(), freq, Divisor(Modulus(fpfd, chspc), r4RfDivSel), fpfd) <==>
                Recombines(Steps(Doubled(freq, r4RfDivSel), Modulus(fpfd, chspc), fpfd), Modulus(fpfd, chspc))
      ensures chspc >= 2 ==> Within(Show(), freq, Divisor(Modulus(fpfd, chspc), r4RfDivSel), fpfd)
    {
      ShownFrequency(freq, Held(), fpfd, chspc, r4RfDivSel);
    }

    /** The channel spacing attribute of `adf4350_store`: any spacing but zero is accepted. */
    method StoreSpacing(spacing: nat) returns (ret: int)
      modifies this`chspc
      ensures if spacing == 0 then ret == -EINVAL && chspc == old(chspc) else ret == 0 && chspc == spacing
    {
      if spacing == 0 { return -EINVAL; }
      chspc := spacing;
      ret := 0;
    }

    /** A request out of range changes nothing. Otherwise the first tuning that is not too fine
        decides: with a phase detector below the channel spacing the modulus is zero and the
        division by it faults, even at the first counter value; else every field is set for the
        request, the register words are those of the fields and one synchronisation is made of
        them. */
    method SetFreq(freq: nat, tune: nat -> Option<Tuning>, good: Transfers) returns (result: Result)
      requires chspc > 0 && minOutFreq >= ADF4351_MIN_OUT_FREQ && TunesReference(tune)
      modifies this`fpfd, this`r0Fract, this`r0Int, this`r1Mod, this`r4RfDivSel, cache
      ensures result.Refused? <==> freq > 4400000000 || freq < minOutFreq
      ensures result.Refused? ==> unchanged(this)
      ensures Start() == (if pdata.refDivFactor > 0 then pdata.refDivFactor - 1 else 0)
      ensures MinInteger(freq) == (if freq > 3000000000 then 75 else 23)
      ensures !result.Refused? ==>
                Decided(result, FirstKept(tune, Start(), chspc, VcoFor(freq), MinInteger(freq)), chspc, fpfd)
      ensures !result.Done? ==> cache.Snapshot() == old(cache.Snapshot())
      ensures result.Done? ==> TunedTo(freq)
      ensures result.Done? ==>
                Loaded(old(cache.Snapshot()),
                       Registers(Held(), freq > 3000000000, result.rCnt, r4RfDivSel, BandDivider(fpfd), pdata), good,
                       cache.Snapshot(), result.ret)
    {
      if freq > MAX_OUT_FREQ || freq < minOutFreq { return Refused; }
      var prescaler := freq > MAX_FREQ_45_PRESC;
      var mdiv := if prescaler then 75 else 23;
      var vco := Double(freq);
      DoublingsAre(freq, r4RfDivSel);
      var found := Search(vco, mdiv, tune);
      if found.None? { return Exhausted; }
      var rCnt := found.value;
      if r1Mod == 0 { return Fault(rCnt); }
      ghost var steps := Steps(vco, r1Mod, fpfd);
      var ret := Program(prescaler, rCnt, good, steps);
      result := Done(ret, rCnt);
    }

    /** Lines 136-141. */
    method Double(freq: nat) returns (vco: nat)
      requires freq >= ADF4351_MIN_OUT_FREQ
      modifies this`r4RfDivSel
      ensures Doublings(freq, r4RfDivSel) && vco == Doubled(freq, r4RfDivSel)
    {
      r4RfDivSel := 0;
      vco := freq;
      while vco < MIN_VCO_FREQ
        invariant r4RfDivSel <= 6 && vco == Doubled(freq, r4RfDivSel)
        invariant r4RfDivSel > 0 ==> Doubled(freq, r4RfDivSel - 1) < MIN_VCO_FREQ
        decreases 6 - r4RfDivSel
      {
        DoubleAgain(freq, r4RfDivSel);
        vco := vco * 2;
        r4RfDivSel := r4RfDivSel + 1;
      }
    }

    /** Lines 165-222: the fraction in lowest terms, the register words and their transfer. */
    method Program(prescaler: bool, rCnt: nat, good: Transfers, ghost steps: nat) returns (ret: int)
      requires r1Mod > 0 && r0Fract == steps % r1Mod && r0Int == steps / r1Mod % U32
      modifies this`r0Fract, this`r1Mod, cache
      ensures Held() == Store(steps, old(r1Mod))
      ensures Loaded(old(cache.Snapshot()), Image(prescaler, rCnt), good, cache.Snapshot(), ret)
    {
      if r0Fract != 0 && r1Mod != 0 {
        var divGcd := Gcd(r1Mod, r0Fract);
        r1Mod := r1Mod / divGcd;
        r0Fract := r0Fract / divGcd;
      } else {
        r0Fract := 0;
        r1Mod := 1;
      }
      cache.regs := Image(prescaler, rCnt);
      ret := cache.SyncConfig(good);
    }

    /** The counter value the search starts from: just before a predefined factor. */
    function Start(): nat {
      if pdata.refDivFactor != 0 then pdata.refDivFactor - 1 else 0
    }

    /** Lines 151-157: from the next counter value on, the first with a modulus the chip has. */
    method NextReference(rCnt0: nat, tune: nat -> Option<Tuning>, ghost vco: nat, ghost mdiv: nat)
      returns (next: Option<nat>)
      requires chspc > 0 && TunesReference(tune) && InRange(vco, mdiv)
      modifies this`fpfd, this`r1Mod
      ensures next.None? ==> FirstKept(tune, rCnt0, chspc, vco, mdiv) == None
      ensures next.Some? ==>
                && rCnt0 < next.value < 0x10000 && r1Mod == Modulus(fpfd, chspc) <= MAX_MODULUS && fpfd <= MAX_FREQ_PFD
                && FirstKept(tune, rCnt0, chspc, vco, mdiv) ==
                     KeptFrom(tune, Tuning(next.value, fpfd), chspc, vco, mdiv)
    {
      var t := tune(rCnt0);
      if t.None? { return None; }
      var rCnt := t.value.r;
      fpfd := t.value.fpfd;
      r1Mod := Modulus(fpfd, chspc);
      while r1Mod > MAX_MODULUS
        invariant rCnt0 < rCnt < 0x10000 && r1Mod == Modulus(fpfd, chspc) && fpfd <= MAX_FREQ_PFD
        invariant FirstKept(tune, rCnt0, chspc, vco, mdiv) ==
                    KeptFrom(tune, Tuning(rCnt, fpfd), chspc, vco, mdiv)
        decreases 0x10000 - rCnt
      {
        ModulusTooLarge(fpfd, chspc);
        t := tune(rCnt);
        if t.None? { return None; }
        rCnt, fpfd := t.value.r, t.value.fpfd;
        r1Mod := Modulus(fpfd, chspc);
      }
      next := Some(rCnt);
    }

    /** The fields after a pass of the search: the unreduced setting for a VCO frequency. */
    predicate Unreduced(vco: nat)
      requires chspc > 0
      reads this
    {
      && chspc <= fpfd <= MAX_FREQ_PFD && r1Mod == Modulus(fpfd, chspc) && 0 < r1Mod <= MAX_MODULUS
      && r0Fract == Steps(vco, r1Mod, fpfd) % r1Mod && r0Int == IntegerPart(fpfd, chspc, vco)
    }

    /** Lines 159-162: the number of fractional steps, split. */
    method Divide(vco: nat)
      requires 0 < chspc <= fpfd <= MAX_FREQ_PFD && r1Mod == Modulus(fpfd, chspc) && 0 < r1Mod <= MAX_MODULUS
      modifies this`r0Fract, this`r0Int
      ensures Unreduced(vco)
    {
      var tmp := vco * r1Mod + (if fpfd > 1 then 1 else 0);
      tmp := tmp / fpfd;
      r0Fract, tmp := tmp % r1Mod, tmp / r1Mod;
      r0Int := tmp % U32;
    }

    /** Lines 147-163: the first tuning that is not too fine and, unless its modulus is zero, the
        unreduced setting for it. */
    method Search(vco: nat, mdiv: nat, tune: nat -> Option<Tuning>) returns (found: Option<nat>)
      requires chspc > 0 && TunesReference(tune) && InRange(vco, mdiv)
      modifies this`fpfd, this`r0Fract, this`r0Int, this`r1Mod
      ensures found.None? ==> FirstKept(tune, Start(), chspc, vco, mdiv) == None
      ensures found.Some? ==> FirstKept(tune, Start(), chspc, vco, mdiv) == Some(Tuning(found.value, fpfd))
      ensures found.Some? ==> r1Mod == Modulus(fpfd, chspc) && (r1Mod == 0 <==> fpfd < chspc)
      ensures found.Some? && r1Mod > 0 ==> Unreduced(vco) && r0Int >= mdiv
    {
      var rCnt: nat := Start();
      while true
        invariant FirstKept(tune, Start(), chspc, vco, mdiv) == FirstKept(tune, rCnt, chspc, vco, mdiv)
        decreases 0x10000 - rCnt
      {
        var next := NextReference(rCnt, tune, vco, mdiv);
        if next.None? { return None; }
        rCnt := next.value;
        AtLeastOne(fpfd, chspc);
        PassedOverIff(Tuning(rCnt, fpfd), chspc, vco, mdiv);
        if r1Mod == 0 { return Some(rCnt); }
        Divide(vco);
        if mdiv <= r0Int { return Some(rCnt); }
      }
    }
  }

  /** What the tuning kept makes of a request. */
  predicate Decided(result: Result, kept: Option<Tuning>, chspc: nat, fpfd: nat) {
    match kept
    case None => result.Exhausted?
    case Some(t) =>
      if t.fpfd < chspc then result == Fault(t.r) else result.Done? && result.rCnt == t.r && fpfd == t.fpfd
  }

  /** With a channel spacing above 32 MHz, which the driver accepts, the first counter value already
      gives a zero modulus: every request in range faults, whatever the reference. */
  lemma WideSpacingFaults(tune: nat -> Option<Tuning>, start: nat, chspc: nat, freq: nat, result: Result, fpfd: nat)
    requires TunesReference(tune) && tune(start).Some? && chspc > MAX_FREQ_PFD
    requires Decided(result, FirstKept(tune, start, chspc, VcoFor(freq), MinInteger(freq)), chspc, fpfd)
    ensures result == Fault(tune(start).value.r)
  {
  }

  /** A spacing of more than a 4096th of the phase detector frequency and at most that frequency is met
      at once, unless that is 1 Hz. */
  lemma FittingSpacingTunes(tune: nat -> Option<Tuning>, start: nat, chspc: nat, freq: nat, result: Result, fpfd: nat)
    requires TunesReference(tune) && tune(start).Some? && chspc > 0 && tune(start).value.fpfd > 1
    requires chspc <= tune(start).value.fpfd < 4096 * chspc
    requires Decided(result, FirstKept(tune, start, chspc, VcoFor(freq), MinInteger(freq)), chspc, fpfd)
    ensures result.Done? && result.rCnt == tune(start).value.r
  {
  }

  /** A predefined reference division factor within the phase detector's range is the one used for such
      a spacing. */
  lemma PredefinedFactorUsed(tune: nat -> Option<Tuning>, factor: nat, chspc: nat, freq: nat, result: Result, fpfd: nat)
    requires TunesReference(tune) && factor > 0 && tune(factor - 1).Some? && tune(factor - 1).value.r == factor
    requires 0 < chspc <= tune(factor - 1).value.fpfd < 4096 * chspc && tune(factor - 1).value.fpfd > 1
    requires Decided(result, FirstKept(tune, factor - 1, chspc, VcoFor(freq), MinInteger(freq)), chspc, fpfd)
    ensures result.Done? && result.rCnt == factor && fpfd == tune(factor - 1).value.fpfd
  {
    FittingSpacingTunes(tune, factor - 1, chspc, freq, result, fpfd);
  }

  // ---- what the synthesiser then works with ----

  /** A field of a framed register above the address bits. */
  lemma FramedField(value: Word, i: nat, off: nat, width: nat)
    requires i < 8 && off >= 3
    ensures Extract(Frame(value, i), off, width) == Extract(value, off, width)
  {
    HighBits(i, BITS);
  }

  lemma Reg0Fields(s: Setting)
    ensures Extract(Reg0(s), 15, 16) == And(FromNumber(s.integer), Mask(16))
    ensures Extract(Reg0(s), 3, 12) == And(FromNumber(s.fract), Mask(12))
  {
  }

  lemma Reg1Fields(s: Setting, prescaler: bool)
    ensures Extract(Reg1(s, prescaler), 3, 12) == And(FromNumber(s.mod), Mask(12))
    ensures Extract(Reg1(s, prescaler), 27, 1) == Bit(prescaler)
  {
  }

  lemma Reg4Divider(k: nat, band: nat, p: Platform)
    requires Fits(FromNumber(k), 3) && Fits(FromNumber(band), 8)
    ensures Extract(Reg4(k, band, p), 20, 3) == FromNumber(k)
  {
    assert forall i :: 20 <= i < 23 ==> Reg4(k, band, p)[i] == FromNumber(k)[i - 20];
  }

  lemma Reg4Band(k: nat, band: nat, p: Platform)
    requires Fits(FromNumber(k), 3) && Fits(FromNumber(band), 8)
    ensures Extract(Reg4(k, band, p), 12, 8) == FromNumber(band)
  {
    assert forall i :: 12 <= i < 20 ==> Reg4(k, band, p)[i] == FromNumber(band)[i - 12];
  }

  lemma Masked(n: nat, width: nat)
    requires width <= 16 && n < Pow2(width)
    ensures And(FromNumber(n), Mask(width)) == FromNumber(n) && Number(FromNumber(n)) == n
  {
    FromNumberFits(n, width);
  }

  lemma FractionInEffect(active: Word, s: Setting)
    requires active == Frame(Reg0(s), 0) && s.fract < 4096
    ensures Number(Extract(active, 3, 12)) == s.fract
  {
    TenBits();
    FramedField(Reg0(s), 0, 3, 12);
    Reg0Fields(s);
    Masked(s.fract, 12);
  }

  lemma ModulusInEffect(active: Word, s: Setting, prescaler: bool)
    requires active == Frame(Reg1(s, prescaler), 1) && s.mod < 4096
    ensures Number(Extract(active, 3, 12)) == s.mod && Extract(active, 27, 1) == Bit(prescaler)
  {
    TenBits();
    FramedField(Reg1(s, prescaler), 1, 3, 12);
    FramedField(Reg1(s, prescaler), 1, 27, 1);
    Reg1Fields(s, prescaler);
    Masked(s.mod, 12);
  }

  lemma OutputInEffect(active: Word, k: nat, band: nat, p: Platform)
    requires active == Frame(Reg4(k, band, p), 4) && k < 8 && band < 256
    ensures Number(Extract(active, 20, 3)) == k && Number(Extract(active, 12, 8)) == band
  {
    ByteSize();
    FromNumberFits(k, 3);
    FromNumberFits(band, 8);
    FramedField(Reg4(k, band, p), 4, 20, 3);
    FramedField(Reg4(k, band, p), 4, 12, 8);
    Reg4Divider(k, band, p);
    Reg4Band(k, band, p);
  }

  /** The dividers in effect are those of the setting; its integer part only if it fits the
      16-bit field. */
  lemma DividersInEffect(st: State, s: Setting, prescaler: bool, rCnt: nat, k: nat, band: nat, p: Platform)
    requires InEffect(st) && st.regs == Registers(s, prescaler, rCnt, k, band, p)
    requires s.fract < s.mod <= MAX_MODULUS && k <= 6 && band < 256
    ensures Number(Extract(st.chip.active[0], 15, 16)) == s.integer <==> s.integer < 0x10000
    ensures Number(Extract(st.chip.active[0], 3, 12)) == s.fract
    ensures Number(Extract(st.chip.active[1], 3, 12)) == s.mod
    ensures Extract(st.chip.active[1], 27, 1) == Bit(prescaler)
    ensures Number(Extract(st.chip.active[4], 20, 3)) == k
    ensures Number(Extract(st.chip.active[4], 12, 8)) == band
  {
    assert st.regs[0] == Reg0(s) && st.regs[1] == Reg1(s, prescaler) && st.regs[4] == Reg4(k, band, p);
    IntegerInEffect(st.chip.active[0], s);
    FractionInEffect(st.chip.active[0], s);
    ModulusInEffect(st.chip.active[1], s, prescaler);
    OutputInEffect(st.chip.active[4], k, band, p);
  }

  lemma RequestBelow(freq: nat, k: nat)
    ensures freq <= Doubled(freq, k)
  {
    Monotone(1, Pow2(k), freq);
  }

  lemma PrescalerBit(active: Word, s: Setting, prescaler: bool)
    requires active == Frame(Reg1(s, prescaler), 1)
    ensures Extract(active, 27, 1) == Bit(prescaler)
  {
    FramedField(Reg1(s, prescaler), 1, 27, 1);
    Reg1Fields(s, prescaler);
  }

  lemma BitsDiffer(a: bool, b: bool)
    ensures Bit(a) == Bit(b) <==> a == b
  {
    assert Bit(a)[0] == a && Bit(b)[0] == b;
  }

  /** The prescaler is chosen for the request and not for the VCO frequency it is doubled to: the one
      in effect is that for the VCO frequency if and only if the request was not doubled or ends
      at 3 GHz or less. */
  lemma PrescalerRightIff(st: State, s: Setting, freq: nat, rCnt: nat, k: nat, band: nat, p: Platform)
    requires InEffect(st) && st.regs == Registers(s, freq > MAX_FREQ_45_PRESC, rCnt, k, band, p)
    requires Doublings(freq, k)
    ensures Extract(st.chip.active[1], 27, 1) == Bit(Doubled(freq, k) > MAX_FREQ_45_PRESC) <==>
              k == 0 || Doubled(freq, k) <= MAX_FREQ_45_PRESC
  {
    PrescalerBit(st.chip.active[1], s, freq > MAX_FREQ_45_PRESC);
    BitsDiffer(freq > MAX_FREQ_45_PRESC, Doubled(freq, k) > MAX_FREQ_45_PRESC);
    RequestBelow(freq, k);
    if k > 0 { RequestBelow(freq, k - 1); }
  }

  /** A request of 1.6 GHz runs the VCO at 3.2 GHz with the 4/5 prescaler. */
  lemma PrescalerWrong(st: State, s: Setting, rCnt: nat, band: nat, p: Platform)
    requires InEffect(st) && st.regs == Registers(s, false, rCnt, 1, band, p)
    ensures Doublings(1600000000, 1) && Doubled(1600000000, 1) == 3200000000
    ensures Extract(st.chip.active[1], 27, 1) != Bit(Doubled(1600000000, 1) > MAX_FREQ_45_PRESC)
  {
    PrescalerRightIff(st, s, 1600000000, rCnt, 1, band, p);
  }

  lemma IntegerInEffect(active: Word, s: Setting)
    requires active == Frame(Reg0(s), 0)
    ensures Number(Extract(active, 15, 16)) == s.integer <==> s.integer < 0x10000
  {
    FramedField(Reg0(s), 0, 15, 16);
    Reg0Fields(s);
    WordSize();
    SmallIffHighClear(And(FromNumber(s.integer), Mask(16)), 16);
    if s.integer < 0x10000 { Masked(s.integer, 16); }
  }

  lemma Reg2Counter(rCnt: nat, p: Platform)
    ensures Extract(Reg2(rCnt, p), 14, 10) == And(FromNumber(rCnt), Mask(10))
  {
    assert forall i :: 14 <= i < 24 ==> Reg2(rCnt, p)[i] == FromNumber(rCnt)[i - 14];
  }

  lemma Reg2Flags(rCnt: nat, p: Platform)
    requires Fits(FromNumber(rCnt), 10)
    ensures Reg2(rCnt, p)[13] && Reg2(rCnt, p)[24] == p.refDiv2 && Reg2(rCnt, p)[25] == p.refDoubler
  {
  }

  /** The reference division in effect is the one searched for if and only if the counter value
      fits 10 bits; then doubler and halver are as the platform asks, and double buffering is on. */
  lemma ReferenceInEffect(active: Word, rCnt: nat, p: Platform)
    requires active == Frame(Reg2(rCnt, p), 2)
    ensures Number(Extract(active, 14, 10)) == rCnt <==> rCnt < 1024
    ensures rCnt < 1024 ==> active[13] && active[24] == p.refDiv2 && active[25] == p.refDoubler
  {
    TenBits();
    FramedField(Reg2(rCnt, p), 2, 14, 10);
    Reg2Counter(rCnt, p);
    SmallIffHighClear(And(FromNumber(rCnt), Mask(10)), 10);
    if rCnt < 1024 {
      Masked(rCnt, 10);
      FromNumberFits(rCnt, 10);
      HighBits(2, BITS);
      Reg2Flags(rCnt, p);
    }
  }

  lemma Reg2User(rCnt: nat, p: Platform)
    requires Fits(FromNumber(rCnt), 10)
    ensures forall i :: 6 <= i <= 12 || 26 <= i <= 29 ==> Reg2(rCnt, p)[i] == p.r2User[i]
    ensures forall i :: 3 <= i <= 5 || 30 <= i <= 31 ==> !Reg2(rCnt, p)[i]
  {
  }

  /** With a counter value of 10 bits the user's polarity, lock detection, charge pump current,
      multiplexer and lower noise bit are in effect in register 2, and it neither resets, floats nor
      powers down; of the noise mode's two bits the upper one is always clear. */
  lemma UserInEffect(active: Word, rCnt: nat, p: Platform)
    requires active == Frame(Reg2(rCnt, p), 2) && rCnt < 1024
    ensures forall i :: 6 <= i <= 12 || 26 <= i <= 29 ==> active[i] == p.r2User[i]
    ensures forall i :: 3 <= i <= 5 || 30 <= i <= 31 ==> !active[i]
  {
    TenBits();
    FromNumberFits(rCnt, 10);
    HighBits(2, BITS);
    Reg2User(rCnt, p);
  }

  /** The driver's own settings for register 2: a comma where a `|` was meant leaves only the polarity. */
  predicate DefaultSettings(p: Platform) { forall i :: 0 <= i < BITS ==> p.r2User[i] == (i == 6) }

  /** So the charge pump works at its least current and not at the 2500 uA written there. */
  lemma DefaultCurrent(active: Word, rCnt: nat, p: Platform)
    requires active == Frame(Reg2(rCnt, p), 2) && rCnt < 1024 && DefaultSettings(p)
    ensures active[6] && Number(Extract(active, 9, 4)) == 0 && (2500 - 312) / 312 == 7
  {
    UserInEffect(active, rCnt, p);
    SmallIffHighClear(Extract(active, 9, 4), 0);
  }

  /** Above the address bits a word in effect is the register value. */
  lemma FramedBits(value: Word, i: nat)
    requires i < 8
    ensures forall j :: 3 <= j < BITS ==> Frame(value, i)[j] == value[j]
  {
    HighBits(i, BITS);
  }

  /** The user's bits and the fixed ones in effect in registers 3, 4 and 5. */
  lemma FixedInEffect(st: State, s: Setting, prescaler: bool, rCnt: nat, k: nat, band: nat, p: Platform)
    requires InEffect(st) && st.regs == Registers(s, prescaler, rCnt, k, band, p) && k < 8 && band < 256
    ensures forall i :: 3 <= i < BITS ==>
              st.chip.active[3][i] == (p.r3User[i] && (i <= 14 || 16 <= i <= 18 || 21 <= i <= 23))
    ensures st.chip.active[4][5] && st.chip.active[4][23]
    ensures forall i :: 3 <= i <= 10 && i != 5 ==> st.chip.active[4][i] == p.r4User[i]
    ensures forall i :: i == 11 || 24 <= i < BITS ==> !st.chip.active[4][i]
    ensures forall i :: 3 <= i < BITS ==> st.chip.active[5][i] == (i == 22)
  {
    assert st.regs[3] == And(p.r3User, R3UserBits()) && st.regs[4] == Reg4(k, band, p) && st.regs[5] == Flag(true, 22);
    FramedBits(st.regs[3], 3);
    FramedBits(st.regs[4], 4);
    FramedBits(st.regs[5], 5);
    Reg4User(k, band, p);
  }

  /** Each word in effect was sent to its own register, and in registers 0 and 1 nothing is set beside
      the dividers and the prescaler: the phase is zero. */
  lemma NothingElseInEffect(st: State, s: Setting, prescaler: bool, rCnt: nat, k: nat, band: nat, p: Platform)
    requires InEffect(st) && st.regs == Registers(s, prescaler, rCnt, k, band, p)
    ensures forall i :: 0 <= i < COUNT ==> Address(st.chip.active[i]) == i
    ensures !st.chip.active[0][31] && forall i :: 15 <= i < BITS && i != 27 ==> !st.chip.active[1][i]
  {
    forall i | 0 <= i < COUNT ensures Address(st.chip.active[i]) == i { FrameAddress(st.regs[i], i); }
    assert st.regs[0] == Reg0(s) && st.regs[1] == Reg1(s, prescaler);
    FramedBits(st.regs[0], 0);
    FramedBits(st.regs[1], 1);
    LowClear(s, prescaler);
  }

  lemma LowClear(s: Setting, prescaler: bool)
    ensures !Reg0(s)[31] && forall i :: 15 <= i < BITS && i != 27 ==> !Reg1(s, prescaler)[i]
  {
  }

  lemma Reg4User(k: nat, band: nat, p: Platform)
    requires k < 8 && band < 256
    ensures Reg4(k, band, p)[5] && Reg4(k, band, p)[23]
    ensures forall i :: 3 <= i <= 10 && i != 5 ==> Reg4(k, band, p)[i] == p.r4User[i]
    ensures forall i :: i == 11 || 24 <= i < BITS ==> !Reg4(k, band, p)[i]
  {
    ByteSize();
    FromNumberFits(k, 3);
    FromNumberFits(band, 8);
  }

  lemma ShownFrequency(freq: nat, s: Setting, fpfd: nat, chspc: nat, k: nat)
    requires chspc > 0 && 0 < fpfd / chspc <= MAX_MODULUS && 0 < fpfd && Doublings(freq, k) && freq <= MAX_OUT_FREQ
    requires s == Store(Steps(Doubled(freq, k), fpfd / chspc, fpfd), fpfd / chspc)
    ensures s.mod > 0
    ensures Within(Report(s, fpfd, k), freq, Divisor(fpfd / chspc, k), fpfd) <==>
              Recombines(Steps(Doubled(freq, k), fpfd / chspc, fpfd), fpfd / chspc)
    ensures chspc >= 2 ==> Within(Report(s, fpfd, k), freq, Divisor(fpfd / chspc, k), fpfd)
  {
    ReportWithinIff(freq, k, fpfd / chspc, fpfd);
    if chspc >= 2 {
      VcoAtMost(freq, k);
      DivMod(fpfd, chspc);
      Monotone(1, fpfd / chspc, chspc);
      WideSpacingRecombines(Doubled(freq, k), fpfd, chspc);
    }
  }

  lemma VcoAtMost(freq: nat, k: nat)
    requires Doublings(freq, k) && freq <= MAX_OUT_FREQ
    ensures Doubled(freq, k) <= MAX_OUT_FREQ
  {
    if k > 0 { assert Doubled(freq, k) == 2 * Doubled(freq, k - 1); }
  }
}
