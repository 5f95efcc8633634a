/** The synthesiser tuning program (sw/langford_driver/libs/fsynth.cpp): `set_freq` storing its
    setting (sw/langford_driver/libs/adf4351_regs.hpp:352-495), the residual correction in the
    digital converter, and the whole path from a requested frequency to the hardware. */
module Fsynth {
  import opened Words
  import opened Pio
  import opened Serial
  import opened SynthRegs
  import opened Tuning

  const REF_IN: real := 125000000.0
  const CHAN_MOD: nat := 125

  /** The fields `fsynth_t` starts with (sw/langford_driver/libs/fsynth.hpp:15-56). */
  predicate Fresh(s: Synth) {
    && Number(s.integer) == 71 && Number(s.mod) == 26 && Number(s.rCounter) == 2 && Number(s.rfDividerSelect) == 2
    && Number(s.bandSelectClockDiv) == 250 && Number(s.clockDivider) == 75
    && Number(s.chargePumpCurrent) == 5 && Number(s.muxout) == 5
    && Mask(1) == s.frac == s.phase == s.pdPolarity == s.referenceDivideBy2 == s.rfOutputEnable == s.feedbackSelect
       == s.ldPinMode
    && Mask(2) == s.lowNoiseAndSpur == s.outputPower
    && Mask(0) == s.prescaler == s.counterReset == s.cpThreeState == s.powerDown == s.ldp == s.ldf == s.doubleBuffer
       == s.referenceDoubler == s.clockDivMode == s.cycleSlipReduction == s.auxOutputPower == s.auxOutputEnable
       == s.auxOutputSelect == s.muteTillLockDetect == s.vcoPowerDown
  }

  /** A number stored in a field wide enough for it. */
  method StoreNumber(n: nat, width: nat) returns (w: Word)
    requires width <= 16 && n < Pow2(width)
    ensures Number(w) == n && Fits(w, width)
  {
    FromNumberFits(n, width);
    w := FromNumber(n);
  }

  /** A field of ones. */
  lemma OnesIs(w: Word, width: nat)
    requires width <= BITS && w == Mask(width)
    ensures Number(w) == Pow2(width) - 1
  {
    Ones(w, width);
  }

  lemma FreshDividers(s: Synth)
    requires Fresh(s)
    ensures DividersOf(s) == Dividers(71, 1, 26, 0, 2, 1, 250, 2)
  {
    ByteSize();
    OnesIs(s.frac, 1);
    OnesIs(s.referenceDivideBy2, 1);
    OnesIs(s.referenceDoubler, 0);
  }

  // ---- set_freq ----

  /** The fields `set_freq` stores. */
  function Store(s: Synth, v: Dividers): Synth {
    s.(frac := FromNumber(v.frac), integer := FromNumber(v.integer), mod := FromNumber(v.mod),
       rCounter := FromNumber(v.r), referenceDivideBy2 := FromNumber(v.by2), referenceDoubler := FromNumber(v.doubler),
       bandSelectClockDiv := FromNumber(v.bandSelect), rfDividerSelect := FromNumber(v.rfSelect),
       auxOutputPower := Mask(0), auxOutputEnable := Mask(0), auxOutputSelect := Mask(0))
  }

  predicate FitFields(v: Dividers) {
    && v.frac < 4096 && v.integer < 0x10000 && v.mod < 4096 && v.r < 1024 && v.by2 < 2 && v.doubler < 2
    && v.bandSelect < 256 && v.rfSelect < 8
  }

  lemma StoredDividers(s: Synth, v: Dividers)
    requires FitFields(v)
    ensures DividersOf(Store(s, v)) == v
    ensures InWidths(s) ==> InWidths(Store(s, v))
  {
    ByteSize();
    TenBits();
    WordSize();
    FromNumberFits(v.frac, 12);
    FromNumberFits(v.integer, 16);
    FromNumberFits(v.mod, 12);
    FromNumberFits(v.r, 10);
    FromNumberFits(v.by2, 1);
    FromNumberFits(v.doubler, 1);
    FromNumberFits(v.bandSelect, 8);
    FromNumberFits(v.rfSelect, 3);
    FromNumberFits(0, 1);
  }

  predicate Legal(target: real) { MIN_OUT_FREQ <= target <= MAX_OUT_FREQ }

  /** The VCO frequency for a legal target. */
  function VcoFor(target: real): real { VcoOf(target, LeastDoublings(target)) }

  /** The ratio fits the `int` that line 417 converts it to. Below a reference of about 1 Hz it need not. */
  predicate Representable(target: real, ref: real)
    requires ref > 0.0
  {
    Convertible(VcoFor(target), PhaseDetectorFor(ref))
  }

  /** The search's results, as the fields must hold them, are tuned to the target. */
  lemma SearchTunes(target: real, ref: real, mod: nat, vco: real, rfDiv: nat, k: nat,
                    rr: nat, bs: nat, n: int, pfd: real, v: Dividers)
    requires VcoChoice(target, vco, rfDiv, k) && DividerChoice(ref, vco, rr, bs, n, pfd) && 0 < mod <= MAX_MODULUS
    requires v.r * (1 + v.by2) == rr && v.by2 == (if rr % 2 == 0 then 1 else 0) && v.doubler == Doubler(ref)
    requires v.integer == n % 0x10000 && v.frac == FracOf(Quotient(vco, pfd), mod) && v.mod == mod
    requires v.bandSelect == bs && v.rfSelect == k
    ensures TunedTo(v, target, ref, mod) && FitFields(v)
  {
    assert VcoOf(target, k) == vco;
    assert v.r > 0 by { if v.r == 0 { assert 0 * (1 + v.by2) == 0; } }
    assert PfdOf(v, ref) == pfd;
    FracNearest(Quotient(vco, pfd), mod);
  }

  /** What the search's results give at the output. */
  lemma SearchOutput(target: real, ref: real, mod: nat, v: Dividers, n: nat, rfDiv: nat, actual: real)
    requires TunedTo(v, target, ref, mod) && n == Quotient(VcoOf(target, v.rfSelect), PfdOf(v, ref)).Floor
    requires rfDiv == Pow2(v.rfSelect) && actual == Output(n, v.frac, mod, ref, v.doubler, v.r, v.by2, rfDiv)
    ensures Reached(v, target, ref, mod, actual)
  {
    OutputNearTarget(target, VcoOf(target, v.rfSelect), rfDiv, ref, v.doubler, v.r, v.by2, mod, PfdOf(v, ref));
    OutputInjective(n, v.integer, v.frac, mod, ref, v.doubler, v.r, v.by2, rfDiv);
  }

  /** The dividers are right for the target, `actual` is within half a fractional step of it,
      and it is the chip's frequency exactly when the integer part fits its field. */
  predicate Reached(v: Dividers, target: real, ref: real, mod: nat, actual: real) {
    && TunedTo(v, target, ref, mod)
    && Abs(actual - target) <= HalfStep(PfdOf(v, ref), mod, Pow2(v.rfSelect))
    && (actual == ChipFrequency(v, ref) <==> IntegerFits(v, target, ref))
  }

  /** Lines 371-444: what to store and the frequency to report. */
  method Search(target: real, refIn: real, chanMod: nat) returns (v: Dividers, actual: real)
    requires 0.0 < refIn <= MAX_REF_FREQ && 0 < chanMod <= MAX_MODULUS && Legal(target) && Representable(target, refIn)
    ensures Reached(v, target, refIn, chanMod, actual) && FitFields(v)
  {
    var d, t := Doubler(refIn), 0;
    var vco, rfDiv, rfReg := FindVco(target);
    LeastDoublingsIs(target, rfReg);
    var rr, bs, n, pfd := FindDividers(refIn, vco);
    RoundedFraction(vco, pfd, n, chanMod);
    var frac := Round((vco / pfd - n as real) * chanMod as real);
    var r := rr;
    if r % 2 == 0 {
      t := 1;
      r := r / 2;
    }
    actual := Output(n, frac, chanMod, refIn, d, r, t, rfDiv);
    v := Dividers(n % 0x10000, frac, chanMod, d, r, t, bs, rfReg);
    SearchTunes(target, refIn, chanMod, vco, rfDiv, rfReg, rr, bs, n, pfd, v);
    SearchOutput(target, refIn, chanMod, v, n, rfDiv, actual);
  }

  class Fsynth {
    var regs: Synth

    constructor ()
      ensures Fresh(regs) && InWidths(regs)
    {
      ByteSize();
      TenBits();
      WordSize();
      var integer := StoreNumber(71, 16);
      var mod := StoreNumber(26, 12);
      var chargePumpCurrent := StoreNumber(5, 4);
      var rCounter := StoreNumber(2, 10);
      var muxout := StoreNumber(5, 3);
      var clockDivider := StoreNumber(75, 12);
      var bandSelectClockDiv := StoreNumber(250, 8);
      var rfDividerSelect := StoreNumber(2, 3);
      regs := Synth(
        frac := Mask(1), integer := integer,
        mod := mod, phase := Mask(1), prescaler := Mask(0),
        counterReset := Mask(0), cpThreeState := Mask(0), powerDown := Mask(0),
        pdPolarity := Mask(1), ldp := Mask(0), ldf := Mask(0),
        chargePumpCurrent := chargePumpCurrent, doubleBuffer := Mask(0), rCounter := rCounter,
        referenceDivideBy2 := Mask(1), referenceDoubler := Mask(0),
        muxout := muxout, lowNoiseAndSpur := Mask(2),
        clockDivider := clockDivider, clockDivMode := Mask(0), cycleSlipReduction := Mask(0),
        outputPower := Mask(2), rfOutputEnable := Mask(1), auxOutputPower := Mask(0),
        auxOutputEnable := Mask(0), auxOutputSelect := Mask(0), muteTillLockDetect := Mask(0),
        vcoPowerDown := Mask(0), bandSelectClockDiv := bandSelectClockDiv,
        rfDividerSelect := rfDividerSelect, feedbackSelect := Mask(1),
        ldPinMode := Mask(1));
    }

    /** For any legal target the fields stored are the ones the search must find, the frequency
        returned is within half a fractional step of the target, and it is the chip's frequency
        exactly when the integer part of the ratio fits 16 bits. The auxiliary output is switched
        off and no other field moves, not even the prescaler selection that a VCO frequency above
        3 GHz requires, so the setting is one the chip allows exactly for some requests. */
    method SetFreq(target: real, refIn: real, chanMod: nat) returns (actual: real)
      requires 0.0 < refIn <= MAX_REF_FREQ && 0 < chanMod <= MAX_MODULUS
      requires Legal(target) ==> Representable(target, refIn)
      modifies this
      ensures Legal(target) <==> 34375000.0 <= target <= 4400000000.0
      ensures !Legal(target) ==> actual == 1.0 && regs == old(regs)
      ensures Legal(target) ==>
                && Reached(DividersOf(regs), target, refIn, chanMod, actual)
                && Number(regs.referenceDoubler) == (if refIn <= 12500000.0 then 1 else 0)
                && regs == old(regs).(
                     frac := regs.frac, integer := regs.integer, mod := regs.mod, rCounter := regs.rCounter,
                     referenceDivideBy2 := regs.referenceDivideBy2, referenceDoubler := regs.referenceDoubler,
                     bandSelectClockDiv := regs.bandSelectClockDiv, rfDividerSelect := regs.rfDividerSelect,
                     auxOutputPower := Mask(0), auxOutputEnable := Mask(0), auxOutputSelect := Mask(0))
      ensures Legal(target) ==>
                var v := DividersOf(regs);
                && PfdOf(v, refIn) <= 31250000.0
                && 125000.0 * (v.bandSelect - 1) as real < PfdOf(v, refIn) <= 125000.0 * v.bandSelect as real
      ensures Legal(target) ==>
                (Admissible(regs, target) <==> AdmissibleRequest(old(regs).prescaler, target, refIn, chanMod))
      ensures InWidths(old(regs)) ==> InWidths(regs)
    {
      if target < MIN_OUT_FREQ || target > MAX_OUT_FREQ { return 1.0; }
      var v;
      v, actual := Search(target, refIn, chanMod);
      StoredDividers(regs, v);
      BandSelected(v, target, refIn, chanMod);
      regs := Store(regs, v);
      AdmissibleIff(regs, target, refIn, chanMod);
    }
  }

  /** The band select clock runs at 125 kHz or less, and would not with a smaller divider. */
  lemma BandSelected(v: Dividers, target: real, ref: real, mod: nat)
    requires TunedTo(v, target, ref, mod)
    ensures 125000.0 * (v.bandSelect - 1) as real < PfdOf(v, ref) <= 125000.0 * v.bandSelect as real
  {
    var pfd := PfdOf(v, ref);
    DivBound(pfd, v.bandSelect as real, 125000.0);
    if v.bandSelect > 1 {
      assert BandClock(pfd, v.bandSelect - 1) > MAX_BAND_SELECT;
      DivBound(pfd, (v.bandSelect - 1) as real, 125000.0);
    }
  }

  lemma RoundedFraction(vco: real, pfd: real, n: int, mod: nat)
    requires pfd > 0.0 && mod > 0 && n == Quotient(vco, pfd).Floor
    ensures (vco / pfd - n as real) * mod as real >= 0.0
    ensures Round((vco / pfd - n as real) * mod as real) == FracOf(Quotient(vco, pfd), mod) >= 0
  {
    FracNonNegative(Quotient(vco, pfd), mod);
    FracNearest(Quotient(vco, pfd), mod);
  }

  /** Different integer parts give different frequencies. */
  lemma OutputInjective(n: nat, n': nat, frac: nat, mod: nat, ref: real, d: nat, r: nat, t: nat, rfDiv: nat)
    requires mod > 0 && r > 0 && rfDiv > 0 && Pfd(ref, d, r * (1 + t)) > 0.0
    ensures Output(n, frac, mod, ref, d, r, t, rfDiv) == Output(n', frac, mod, ref, d, r, t, rfDiv) ==> n == n'
  {
    var pfd := Pfd(ref, d, r * (1 + t));
    OutputIs(n, frac, mod, ref, d, r, t, rfDiv);
    OutputIs(n', frac, mod, ref, d, r, t, rfDiv);
    if n < n' { ScaledGrows(Ratio(n, frac, mod), Ratio(n', frac, mod), pfd, rfDiv); }
    if n' < n { ScaledGrows(Ratio(n', frac, mod), Ratio(n, frac, mod), pfd, rfDiv); }
  }

  lemma ScaledGrows(x: real, y: real, pfd: real, rfDiv: nat)
    requires x < y && pfd > 0.0 && rfDiv > 0
    ensures Scaled(x, pfd, rfDiv) < Scaled(y, pfd, rfDiv)
  {
    MulMonoStrict(x, y, pfd);
    DivTimes(x * pfd, rfDiv as real);
    DivTimes(y * pfd, rfDiv as real);
    MulOrder(y * pfd / rfDiv as real, x * pfd / rfDiv as real, rfDiv as real);
  }

  // ---- the prescaler ----

  /** The prescaler bit the data sheet asks for at a VCO frequency: 8/9 above 3 GHz, else 4/5. */
  function PrescalerFor(vco: real): Word { Bit(vco > 3000000000.0) }

  /** The chip allows the setting: the numerator is below the modulus and the prescaler is the one
      for the VCO frequency. */
  predicate Admissible(s: Synth, target: real) {
    Number(s.frac) < Number(s.mod) && s.prescaler == PrescalerFor(VcoOf(target, Number(s.rfDividerSelect)))
  }

  /** The requests that lead to such a setting: a VCO frequency for which the prescaler is already
      selected, and a ratio whose fraction does not round up to the modulus. */
  predicate AdmissibleRequest(prescaler: Word, target: real, ref: real, mod: nat)
    requires ref > 0.0
  {
    prescaler == PrescalerFor(VcoFor(target)) && FractionFits(VcoFor(target), PhaseDetectorFor(ref), mod)
  }

  predicate FractionFits(vco: real, pfd: real, mod: nat)
    requires pfd > 0.0
  {
    FracPart(Quotient(vco, pfd)) * mod as real < mod as real - 0.5
  }

  lemma PrescalerIs(vco: real)
    ensures Mask(0) == PrescalerFor(vco) <==> vco <= 3000000000.0
  {
    assert Bit(true)[0] && !Mask(0)[0];
    assert Bit(false) == Mask(0);
  }

  /** Settings tuned to a target are ones the chip allows exactly for those requests. */
  lemma AdmissibleIff(s: Synth, target: real, ref: real, mod: nat)
    requires Legal(target) && ref > 0.0 && TunedTo(DividersOf(s), target, ref, mod)
    ensures Admissible(s, target) <==> AdmissibleRequest(s.prescaler, target, ref, mod)
  {
    FractionBelow(DividersOf(s), target, ref, mod);
  }

  lemma FractionBelow(v: Dividers, target: real, ref: real, mod: nat)
    requires Legal(target) && ref > 0.0 && TunedTo(v, target, ref, mod)
    ensures VcoOf(target, v.rfSelect) == VcoFor(target)
    ensures v.frac < v.mod <==> FractionFits(VcoFor(target), PhaseDetectorFor(ref), mod)
  {
    SearchIsLeast(v, target, ref, mod);
    FracNearest(Quotient(VcoFor(target), PhaseDetectorFor(ref)), mod);
  }

  lemma SearchIsLeast(v: Dividers, target: real, ref: real, mod: nat)
    requires Legal(target) && ref > 0.0 && TunedTo(v, target, ref, mod)
    ensures v.rfSelect == LeastDoublings(target) && v.r * (1 + v.by2) == LeastDivider(ref)
    ensures PfdOf(v, ref) == PhaseDetectorFor(ref)
  {
    LeastDoublingsIs(target, v.rfSelect);
    LeastDividerIs(ref, v.r * (1 + v.by2));
  }

  /** Two requests that do not, with the prescaler of the constructor and the reference and modulus of
      the program: one for the prescaler, one for the numerator. */
  lemma InadmissibleRequests()
    ensures Legal(4000000000.0) && !AdmissibleRequest(Mask(0), 4000000000.0, REF_IN, CHAN_MOD)
    ensures Legal(2218625000.0) && VcoFor(2218625000.0) <= 3000000000.0
    ensures !AdmissibleRequest(Mask(0), 2218625000.0, REF_IN, CHAN_MOD)
  {
    SmallPowers();
    PrescalerIs(VcoFor(4000000000.0));
    FixedDetector();
    FracReachesModulus();
    FracNearest(Quotient(2218625000.0, DESIGN_PFD), CHAN_MOD);
  }

  lemma FixedDetector()
    ensures PhaseDetectorFor(REF_IN) == DESIGN_PFD
  {
    LeastDividerIs(REF_IN, 4);
  }

  // ---- the setting is unique ----

  /** A target, a reference and a modulus leave no freedom: `set_freq` stores the one setting
      its search describes. */
  lemma TunedUniquely(v: Dividers, v': Dividers, target: real, ref: real, mod: nat)
    requires Legal(target) && ref > 0.0 && TunedTo(v, target, ref, mod) && TunedTo(v', target, ref, mod)
    ensures v == v'
  {
    SearchIsLeast(v, target, ref, mod);
    SearchIsLeast(v', target, ref, mod);
    SameReference(v, v', target, ref, mod);
  }

  lemma SameReference(v: Dividers, v': Dividers, target: real, ref: real, mod: nat)
    requires TunedTo(v, target, ref, mod) && TunedTo(v', target, ref, mod) && v.rfSelect == v'.rfSelect
    ensures v == v'
  {
    var r, r' := v.r * (1 + v.by2), v'.r * (1 + v'.by2);
    assert r == r';
    assert v.bandSelect == v'.bandSelect;
  }

  // ---- the digital converter ----

  /** One step of the converter's phase increment. */
  const PHASE_STEP: real := 125000000.0 / 4294967295.0

  /** How far, and which way, the converter then shifts the channel. */
  function Corrected(actual: real, phase: nat, reversed: bool): real {
    if reversed then actual - phase as real * PHASE_STEP else actual + phase as real * PHASE_STEP
  }

  function PhaseField(channel: int): Field { if channel == 1 then RX_PHASE else TX_PHASE }

  const SET_RX_PHASE := RX_PHASE + 1
  const SET_TX_PHASE := TX_PHASE + 1
  const SET_RX_REV_FREQ := RX_REV_FREQ + 1
  const SET_TX_REV_FREQ := TX_REV_FREQ + 1

  function RevFreqField(channel: int): Field { if channel == 1 then RX_REV_FREQ else TX_REV_FREQ }

  /** The phase increment computed for a frequency difference. */
  function PhaseOf(difference: real): int { (difference / 125000000.0 * 4294967295.0).Floor }

  /** It fits the `int` it is converted to. */
  predicate PhaseFits(difference: real) { PhaseOf(difference) < 0x8000_0000 }

  lemma PhaseRounds(difference: real)
    requires 0.0 <= difference
    ensures 0 <= PhaseOf(difference)
    ensures 0.0 <= difference - PhaseOf(difference) as real * PHASE_STEP < PHASE_STEP
    ensures difference < 62500000.0 ==> PhaseFits(difference)
  {
    var x := difference / 125000000.0 * 4294967295.0;
    assert difference == x * PHASE_STEP;
  }

  /** What the two settings of the converter do to every field. */
  lemma DdcEffect(pio: Regs, channel: int, phase: Word, reversed: bool)
    ensures var p, q := PhaseField(channel), RevFreqField(channel);
            var after := WriteField(WriteField(pio, p, phase), q, Bit(reversed));
            && ReadField(after, p) == phase && ReadField(after, q) == Bit(reversed) && after[1] == pio[1]
            && forall g: Field :: g != p && g != q ==> ReadField(after, g) == ReadField(pio, g)
  {
    var p, q := PhaseField(channel), RevFreqField(channel);
    var between := WriteField(pio, p, phase);
    FitsBit(reversed);
    forall g: Field
      ensures ReadField(WriteField(between, q, Bit(reversed)), g) ==
                Effect(q, Bit(reversed), g, Effect(p, phase, g, ReadField(pio, g)))
    {
      SetRefinesUpdate(pio, p, phase, g);
      SetRefinesUpdate(between, q, Bit(reversed), g);
    }
  }

  /** What is left of a frequency difference is less than one phase step, on the side it was. */
  predicate Corrects(actual: real, target: real, phase: nat, reversed: bool) {
    var left := Corrected(actual, phase, reversed) - target;
    Abs(left) < PHASE_STEP && (if actual > target then left >= 0.0 else left <= 0.0)
  }

  lemma PhaseCorrects(actual: real, target: real)
    ensures 0 <= PhaseOf(Abs(actual - target))
    ensures Corrects(actual, target, PhaseOf(Abs(actual - target)), actual > target)
  {
    PhaseRounds(Abs(actual - target));
  }

  /** What the converter is left with: the direction bit, and a phase that corrects the difference
      to less than one step, unless it does not fit an `int`. */
  predicate Converted(pio: Regs, channel: int, actual: real, target: real, overflow: Word) {
    && ReadField(pio, RevFreqField(channel)) == Bit(actual > target)
    && PhaseOk(ReadField(pio, PhaseField(channel)), actual, target, overflow)
  }

  predicate PhaseOk(phase: Word, actual: real, target: real, overflow: Word) {
    if PhaseFits(Abs(actual - target)) then
      Corrects(actual, target, Number(phase), actual > target) && Signed(phase) >= 0
    else
      phase == overflow
  }

  /** The conversion of line 174. */
  function PhaseWord(difference: real, overflow: Word): Word
    requires difference >= 0.0
  {
    PhaseRounds(difference);
    if PhaseFits(difference) then FromNumber(PhaseOf(difference)) else overflow
  }

  lemma PhaseWordOk(actual: real, target: real, overflow: Word)
    ensures PhaseOk(PhaseWord(Abs(actual - target), overflow), actual, target, overflow)
  {
    PhaseCorrects(actual, target);
    if PhaseFits(Abs(actual - target)) { StoredPhase(PhaseOf(Abs(actual - target))); }
  }

  /** The same in the registers: the phase is the whole of PIO3 or PIO4, the direction bit 16 or 17 of
      PIO5. */
  predicate CorrectionStored(channel: int, phase: Word, reversed: bool, was: Regs, now: Regs) {
    if channel == 1 then now == was[3 := phase][5 := was[5][16 := reversed]]
    else now == was[4 := phase][5 := was[5][17 := reversed]]
  }

  lemma DdcRegisters(pio: Regs, channel: int, phase: Word, reversed: bool)
    ensures var p, q := PhaseField(channel), RevFreqField(channel);
            CorrectionStored(channel, phase, reversed, pio, WriteField(WriteField(pio, p, phase), q, Bit(reversed)))
  {
    WholeWord(pio[3], phase);
    WholeWord(pio[4], phase);
    InsertBit(pio[5], 16, reversed);
    InsertBit(pio[5], 17, reversed);
  }

  lemma WholeWord(word: Word, v: Word)
    ensures Insert(word, 0, BITS, v) == v
  {
  }

  /** The two settings of lines 176-177. */
  method StoreCorrection(file: RegisterFile, channel: int, phase: Word, reversed: bool) returns (rc: int)
    modifies file
    ensures rc == 0
    ensures file.pio == WriteField(WriteField(old(file.pio), PhaseField(channel), phase), RevFreqField(channel),
                                   Bit(reversed))
  {
    FitsBit(reversed);
    var out;
    rc, out := file.CdevIoctl(if channel == 1 then SET_RX_PHASE else SET_TX_PHASE, phase);
    var r;
    r, out := file.CdevIoctl(if channel == 1 then SET_RX_REV_FREQ else SET_TX_REV_FREQ, Bit(reversed));
    rc := if rc == 0 then r else rc;
  }

  /** `SetDDCFreq`, once the device file is open: direction and phase as above, and no other field
      of the register file changes. The language leaves open what a value outside `int` is
      converted to; here it is `overflow`. */
  method SetDDCFreq(file: RegisterFile, channel: int, actual: real, target: real, overflow: Word) returns (rc: int)
    modifies file
    ensures channel != 1 && channel != 2 ==> rc == 1 && file.pio == old(file.pio)
    ensures channel == 1 || channel == 2 ==>
              && rc == 0
              && Converted(file.pio, channel, actual, target, overflow)
              && (forall g: Field :: g != PhaseField(channel) && g != RevFreqField(channel) ==>
                    ReadField(file.pio, g) == ReadField(old(file.pio), g))
    ensures channel == 1 ==>
              && Rotated(file.pio[3], actual, target)
              && CorrectionStored(1, file.pio[3], actual > target, old(file.pio), file.pio)
    ensures channel == 2 ==>
              && Rotated(file.pio[4], actual, target)
              && CorrectionStored(2, file.pio[4], actual > target, old(file.pio), file.pio)
    ensures file.pio[1] == old(file.pio)[1]
  {
    if channel != 1 && channel != 2 { return 1; }
    PhaseWordOk(actual, target, overflow);
    ghost var phase := PhaseWord(Abs(actual - target), overflow);
    DdcEffect(file.pio, channel, phase, actual > target);
    DdcRegisters(file.pio, channel, phase, actual > target);
    PhaseWordRotates(actual, target, overflow);
    rc := StoreCorrection(file, channel, PhaseWord(Abs(actual - target), overflow), actual > target);
  }

  /** The phase is the difference in units of 125 MHz over `2^32 - 1`, rounded down, if that is an `int`. */
  predicate Rotated(phase: Word, actual: real, target: real) {
    var x := Abs(actual - target) / 125000000.0 * 4294967295.0;
    x < 2147483648.0 ==> Number(phase) as real <= x < Number(phase) as real + 1.0
  }

  lemma PhaseWordRotates(actual: real, target: real, overflow: Word)
    ensures Rotated(PhaseWord(Abs(actual - target), overflow), actual, target)
  {
    PhaseRounds(Abs(actual - target));
    if PhaseFits(Abs(actual - target)) { StoredPhase(PhaseOf(Abs(actual - target))); }
  }

  lemma FitsBit(b: bool)
    ensures Fits(Bit(b), 1) && Signed(Bit(b)) <= 1
  {
    SmallIffHighClear(Bit(b), 1);
  }

  lemma StoredPhase(phase: nat)
    requires phase < 0x8000_0000
    ensures Number(FromNumber(phase)) == phase == Signed(FromNumber(phase))
  {
    Stored(phase);
    WordSize();
    assert Pow2(31) == 0x8000_0000 by { assert Pow2(32) == 2 * Pow2(31); }
    SmallIffHighClear(FromNumber(phase), 31);
  }

  // ---- the whole program ----

  /** At the fixed reference and modulus the reference divider is 4, the phase detector runs at
      its design frequency and the integer part always fits. */
  lemma FixedReference(v: Dividers, target: real)
    requires TunedTo(v, target, REF_IN, CHAN_MOD)
    ensures PfdOf(v, REF_IN) == DESIGN_PFD && IntegerFits(v, target, REF_IN)
    ensures HalfStep(DESIGN_PFD, CHAN_MOD, Pow2(v.rfSelect)) <= 125000.0
  {
    var r := v.r * (1 + v.by2);
    assert Pfd(REF_IN, 0, 4) == DESIGN_PFD;
    FourDivides(r);
    FixedRatio(VcoOf(target, v.rfSelect));
    DivBound(DESIGN_PFD, 2.0 * CHAN_MOD as real * Pow2(v.rfSelect) as real, 125000.0);
  }

  lemma FourDivides(r: nat)
    requires r > 0
    ensures r < 4 ==> Pfd(REF_IN, 0, r) > DESIGN_PFD
  {
  }

  lemma FixedRatio(vco: real)
    requires vco <= MAX_OUT_FREQ
    ensures Quotient(vco, DESIGN_PFD).Floor < 0x10000
  {
  }

  /** What a channel is tuned to: the frequency of the settings its synthesiser holds, shifted
      by the digital converter. */
  function ChannelFrequency(held: Synth, pio: Regs, channel: int): real
    requires DividersOf(held).mod > 0 && DividersOf(held).r > 0
  {
    Corrected(ChipFrequency(DividersOf(held), REF_IN), Number(ReadField(pio, PhaseField(channel))),
              ReadField(pio, RevFreqField(channel)) == Bit(true))
  }

  /** The dividers, the auxiliary output and the noise mode are all that `main` sends otherwise than
      it was in `initial`. */
  predicate Refined(initial: Synth, s: Synth, lowSpur: bool) {
    s == initial.(
      frac := s.frac, integer := s.integer, mod := s.mod, rCounter := s.rCounter,
      referenceDivideBy2 := s.referenceDivideBy2, referenceDoubler := s.referenceDoubler,
      bandSelectClockDiv := s.bandSelectClockDiv, rfDividerSelect := s.rfDividerSelect,
      auxOutputPower := Mask(0), auxOutputEnable := Mask(0), auxOutputSelect := Mask(0),
      lowNoiseAndSpur := if lowSpur then Mask(2) else Mask(0))
  }

  /** The test of line 101, on the 32 low bits of the request: meant for the request 0. */
  predicate PowersDown(target: int) { target % 0x1_0000_0000 == 0 }

  /** The requests that `main` accepts (line 66). */
  predicate Accepted(target: int) { target == 0 || Legal(target as real) }

  /** Besides 0 one other accepted request powers the synthesiser down. */
  lemma PowersDownAt(target: int)
    requires Accepted(target)
    ensures PowersDown(target) <==> target == 0 || target == 4294967296
  {
  }

  /** Then only the power-down bit and the noise mode are sent otherwise than they were in `initial`. */
  predicate PoweredDown(initial: Synth, s: Synth, lowSpur: bool) {
    s == initial.(powerDown := Mask(1), lowNoiseAndSpur := if lowSpur then Mask(2) else Mask(0))
  }

  /** Lines 101-103: the settings for an accepted request and the frequency taken for theirs. */
  method Settings(fsynth: Fsynth, target: int, lowSpur: bool) returns (actual: real)
    requires Accepted(target) && InWidths(fsynth.regs)
    modifies fsynth
    ensures InWidths(fsynth.regs)
    ensures PowersDown(target) ==> PoweredDown(old(fsynth.regs), fsynth.regs, lowSpur) && actual == 1.0
    ensures !PowersDown(target) ==> Prepared(old(fsynth.regs), fsynth.regs, actual, target as real, lowSpur)
  {
    if PowersDown(target) {
      fsynth.regs := fsynth.regs.(powerDown := Mask(1));
      actual := 1.0;
    } else {
      FixedRepresentable(target as real);
      actual := fsynth.SetFreq(target as real, REF_IN, CHAN_MOD);
      FixedReference(DividersOf(fsynth.regs), target as real);
    }
    fsynth.regs := fsynth.regs.(lowNoiseAndSpur := if lowSpur then Mask(2) else Mask(0));
  }

  lemma FixedRepresentable(target: real)
    requires Legal(target)
    ensures Representable(target, REF_IN)
  {
    FixedDetector();
    SmallPowers();
  }

  /** The settings are right for the target and the converter makes up for what they leave. */
  predicate OnTarget(held: Synth, pio: Regs, channel: int, target: real) {
    && TunedTo(DividersOf(held), target, 125000000.0, 125)
    && Abs(ChannelFrequency(held, pio, channel) - target) < PHASE_STEP
  }

  /** Outside PIO1 only the phase and direction of the channel differ. */
  ghost predicate OnlyChannelChanged(channel: int, was: Regs, now: Regs) {
    forall g: Field :: Place(g).value.reg != 1 && g != PhaseField(channel) && g != RevFreqField(channel) ==>
      ReadField(now, g) == ReadField(was, g)
  }

  lemma ChannelOnly(channel: int, was: Regs, between: Regs, now: Regs)
    requires between == was[1 := between[1]]
    requires forall g: Field :: g != PhaseField(channel) && g != RevFreqField(channel) ==>
               ReadField(now, g) == ReadField(between, g)
    ensures OnlyChannelChanged(channel, was, now)
  {
    forall g: Field | Place(g).value.reg != 1 ensures ReadField(between, g) == ReadField(was, g) {
      PlaceOk(g);
    }
  }

  /** The channel's synthesiser holds the settings for the target, every other field as it was
      initially, and the converter makes up the rest. */
  predicate Tuned(initial: Synth, held: Synth, pio: Regs, channel: int, target: real, lowSpur: bool) {
    && OnTarget(held, pio, channel, target)
    && Refined(initial, held, lowSpur)
  }

  /** The settings `s` and the frequency they give. */
  predicate Prepared(initial: Synth, s: Synth, actual: real, target: real, lowSpur: bool) {
    && InWidths(s) && TunedTo(DividersOf(s), target, REF_IN, CHAN_MOD) && Refined(initial, s, lowSpur)
    && actual == ChipFrequency(DividersOf(s), REF_IN) && Abs(actual - target) <= 125000.0
  }

  lemma CorrectedNear(pio: Regs, channel: int, actual: real, target: real, overflow: Word)
    requires Converted(pio, channel, actual, target, overflow) && Abs(actual - target) <= 125000.0
    ensures var reversed := ReadField(pio, RevFreqField(channel)) == Bit(true);
            Abs(Corrected(actual, Number(ReadField(pio, PhaseField(channel))), reversed) - target) < PHASE_STEP
  {
    PhaseRounds(Abs(actual - target));
    assert Bit(false)[0] != Bit(true)[0];
  }

  lemma ChannelTuned(initial: Synth, held: Synth, pio: Regs, channel: int,
                     actual: real, target: real, lowSpur: bool, overflow: Word)
    requires Prepared(initial, held, actual, target, lowSpur)
    requires Converted(pio, channel, actual, target, overflow)
    ensures Tuned(initial, held, pio, channel, target, lowSpur)
  {
    CorrectedNear(pio, channel, actual, target, overflow);
  }

  /** Lines 117-123, as the chip sees them. */
  method SendRegisters(board: Board, channel: int, s: Synth) returns (rc: int)
    requires (channel == 1 || channel == 2) && InWidths(s)
    modifies board, board.file
    ensures rc == 0 && board.Other(channel) == old(board.Other(channel)) && Decode(board.Selected(channel).latched) == s
    ensures Reprogrammed(old(board.Selected(channel)), board.Selected(channel))
    ensures HoldsRegisters(board.Selected(channel).latched, s)
    ensures OnlyPins(board.PinsOf(channel), old(board.file.pio), board.file.pio)
  {
    rc := ProgramSynth(board, channel, s);
  }

  /** Lines 117-126: the registers and the correction sent to the hardware. */
  method Send(board: Board, channel: int, s: Synth, actual: real, target: real, overflow: Word) returns (rc: int)
    requires (channel == 1 || channel == 2) && InWidths(s)
    modifies board, board.file
    ensures SameButPins(board.PinsOf(channel), old(board.PinWord()), board.PinWord())
    ensures rc == 0 && board.Other(channel) == old(board.Other(channel)) && Decode(board.Selected(channel).latched) == s
    ensures Reprogrammed(old(board.Selected(channel)), board.Selected(channel))
    ensures OnlyChannelChanged(channel, old(board.file.pio), board.file.pio)
    ensures Converted(board.file.pio, channel, actual, target, overflow)
  {
    rc := SendRegisters(board, channel, s);
    ghost var between := board.file.pio;
    var r := SetDDCFreq(board.file, channel, actual, target, overflow);
    rc := if rc == 0 then r else rc;
    ChannelOnly(channel, old(board.file.pio), between, board.file.pio);
  }

  /** What an accepted request leaves in the hardware: the channel tuned, or its synthesiser powered
      down with its dividers as they were. */
  predicate Outcome(initial: Synth, held: Synth, pio: Regs, channel: int,
                    target: int, lowSpur: bool, overflow: Word) {
    if PowersDown(target) then
      PoweredDown(initial, held, lowSpur) && Converted(pio, channel, 1.0, target as real, overflow)
    else
      Tuned(initial, held, pio, channel, target as real, lowSpur)
  }

  /** The synthesiser is powered up with its VCO, its counters and charge pump work, and the output
      is on. */
  predicate Running(s: Synth) {
    && s.powerDown == Mask(0) && s.vcoPowerDown == Mask(0) && s.counterReset == Mask(0) && s.cpThreeState == Mask(0)
    && s.rfOutputEnable == Mask(1)
  }

  /** What a legal request asks for: the synthesiser runs, its settings are ones the chip allows, and
      the channel is on target. */
  predicate Achieved(held: Synth, pio: Regs, channel: int, target: real) {
    Running(held) && OnTarget(held, pio, channel, target) && Admissible(held, target)
  }

  /** Exactly when that is achieved, from whatever synthesiser object. */
  lemma AchievedIff(initial: Synth, held: Synth, pio: Regs, channel: int,
                    target: int, lowSpur: bool, overflow: Word)
    requires Legal(target as real) && Outcome(initial, held, pio, channel, target, lowSpur, overflow)
    ensures Achieved(held, pio, channel, target as real) <==>
              && Running(initial) && target != 4294967296
              && AdmissibleRequest(initial.prescaler, target as real, REF_IN, CHAN_MOD)
  {
    PowersDownAt(target);
    if PowersDown(target) {
      assert Mask(1)[0] != Mask(0)[0];
    } else {
      AdmissibleIff(held, target as real, REF_IN, CHAN_MOD);
    }
  }

  /** From the object as its constructor leaves it, for all but one of the requests whose VCO frequency
      is at most 3 GHz and whose fraction does not round up. */
  lemma FreshAchievedIff(initial: Synth, held: Synth, pio: Regs, channel: int,
                         target: int, lowSpur: bool, overflow: Word)
    requires Fresh(initial) && Legal(target as real)
    requires Outcome(initial, held, pio, channel, target, lowSpur, overflow)
    ensures Achieved(held, pio, channel, target as real) <==>
              && target != 4294967296 && VcoFor(target as real) <= 3000000000.0
              && FractionFits(VcoFor(target as real), DESIGN_PFD, CHAN_MOD)
  {
    FixedDetector();
    PrescalerIs(VcoFor(target as real));
    AchievedIff(initial, held, pio, channel, target, lowSpur, overflow);
  }

  lemma Untuned(held: Synth, pio: Regs, channel: int, target: real)
    requires DividersOf(held).mod != CHAN_MOD
    ensures !OnTarget(held, pio, channel, target)
  {
  }

  lemma PhaseTooLarge(target: real)
    requires target == 4294967296.0
    ensures Legal(target) && !PhaseFits(Abs(1.0 - target))
  {
  }

  /** The legal request of 4294967296 Hz: the synthesiser ends powered down, with its dividers as they
      were, not on target unless they happened to be, and the phase is whatever the conversion left. */
  lemma FourGigahertz(initial: Synth, held: Synth, pio: Regs, channel: int, lowSpur: bool, overflow: Word)
    requires Outcome(initial, held, pio, channel, 4294967296, lowSpur, overflow)
    ensures Legal(4294967296.0) && held == initial.(powerDown := Mask(1), lowNoiseAndSpur := held.lowNoiseAndSpur)
    ensures DividersOf(held) == DividersOf(initial)
    ensures DividersOf(initial).mod != CHAN_MOD ==> !OnTarget(held, pio, channel, 4294967296.0)
    ensures ReadField(pio, PhaseField(channel)) == overflow
  {
    PowersDownAt(4294967296);
    PhaseTooLarge(4294967296.0);
    if DividersOf(initial).mod != CHAN_MOD { Untuned(held, pio, channel, 4294967296.0); }
  }

  /** The constructor's modulus is not the program's, and with the program's reference its fields do
      not stand for the 555 MHz its comment names but for some 12 kHz less. */
  lemma FreshFrequency(s: Synth)
    requires Fresh(s)
    ensures DividersOf(s).mod != CHAN_MOD
    ensures 12019.0 < 555000000.0 - ChipFrequency(DividersOf(s), REF_IN) < 12020.0
  {
    FreshDividers(s);
    Started(Ratio(71, 1, 26));
    OutputIs(71, 1, 26, REF_IN, 0, 2, 1, 4);
  }

  lemma Started(x: real)
    requires x == 71.0 + 1.0 / 26.0
    ensures Pfd(REF_IN, 0, 4) == 31250000.0
    ensures 12019.0 < 555000000.0 - Scaled(x, 31250000.0, 4) < 12020.0
  {
  }

  /** `main` (lines 99-145) once its arguments are parsed and its object is made, for every request
      it accepts but those whose 32 low bits are zero: the hardware, as its own registers describe
      it, is tuned to within one phase step of the request, and every other field of the
      synthesiser is as it was initialised. For those it powers the synthesiser down. Either way
      the other synthesiser keeps its state, and the register file changes only in the four pins,
      the phase and the direction of this channel. */
  method Tune(board: Board, fsynth: Fsynth, channel: int, target: int, lowSpur: bool, overflow: Word) returns (rc: int)
    requires InWidths(fsynth.regs)
    modifies fsynth, board, board.file
    ensures Accepted(target) <==> target == 0 || 34375000 <= target <= 4400000000
    ensures !Accepted(target) || (channel != 1 && channel != 2) ==>
              rc == 1 && board.rx == old(board.rx) && board.tx == old(board.tx) && board.file.pio == old(board.file.pio)
    ensures Accepted(target) && (channel == 1 || channel == 2) ==>
              && SameButPins(board.PinsOf(channel), old(board.PinWord()), board.PinWord())
              && rc == 0 && board.Other(channel) == old(board.Other(channel))
              && OnlyChannelChanged(channel, old(board.file.pio), board.file.pio)
              && Reprogrammed(old(board.Selected(channel)), board.Selected(channel))
              && Outcome(old(fsynth.regs), Decode(board.Selected(channel).latched), board.file.pio, channel,
                         target, lowSpur, overflow)
              && forall i :: 0 <= i < BITS ==>
                   Decode(board.Selected(channel).latched).lowNoiseAndSpur[i] == (lowSpur && i < 2)
    ensures Legal(target as real) && (channel == 1 || channel == 2) ==>
              (Achieved(Decode(board.Selected(channel).latched), board.file.pio, channel, target as real) <==>
                && Running(old(fsynth.regs)) && target != 4294967296
                && AdmissibleRequest(old(fsynth.regs).prescaler, target as real, REF_IN, CHAN_MOD))
  {
    if channel != 1 && channel != 2 { return 1; }
    if !Accepted(target) { return 1; }
    ghost var initial := fsynth.regs;
    var actual := Settings(fsynth, target, lowSpur);
    rc := Send(board, channel, fsynth.regs, actual, target as real, overflow);
    ghost var held, pio := Decode(board.Selected(channel).latched), board.file.pio;
    if !PowersDown(target) {
      ChannelTuned(initial, held, pio, channel, actual, target as real, lowSpur, overflow);
    }
    if Legal(target as real) {
      AchievedIff(initial, held, pio, channel, target, lowSpur, overflow);
    }
  }
}
