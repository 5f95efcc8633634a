/** The synthesiser's register contents (sw/langford_driver/libs/adf4351_regs.hpp:298-349) and
    their transfer to the chip, registers 5 down to 0 (sw/langford_driver/libs/fsynth.cpp:117-123). */
module SynthRegs {
  import opened Words
  import opened Pio
  import opened Serial
  import ShadowRegs

  /** The fields `get_reg` packs, each as the 32-bit value it is converted to. */
  datatype Synth = Synth(
    frac: Word, integer: Word,
    mod: Word, phase: Word, prescaler: Word,
    counterReset: Word, cpThreeState: Word, powerDown: Word, pdPolarity: Word, ldp: Word, ldf: Word,
    chargePumpCurrent: Word, doubleBuffer: Word, rCounter: Word, referenceDivideBy2: Word,
    referenceDoubler: Word, muxout: Word, lowNoiseAndSpur: Word,
    clockDivider: Word, clockDivMode: Word, cycleSlipReduction: Word,
    outputPower: Word, rfOutputEnable: Word, auxOutputPower: Word, auxOutputEnable: Word,
    auxOutputSelect: Word, muteTillLockDetect: Word, vcoPowerDown: Word, bandSelectClockDiv: Word,
    rfDividerSelect: Word, feedbackSelect: Word,
    ldPinMode: Word)

  /** One term `(value & mask) << off`. */
  datatype Part = Part(off: nat, width: nat, value: Word)

  /** The terms of each case of `get_reg`, in its order. */
  function Parts(s: Synth, addr: int): seq<Part> {
    match addr
    case 0 => [Part(3, 12, s.frac), Part(15, 16, s.integer)]
    case 1 => [Part(3, 12, s.mod), Part(15, 12, s.phase), Part(27, 1, s.prescaler)]
    case 2 => [
      Part(3, 1, s.counterReset), Part(4, 1, s.cpThreeState), Part(5, 1, s.powerDown), Part(6, 1, s.pdPolarity),
      Part(7, 1, s.ldp), Part(8, 1, s.ldf), Part(9, 4, s.chargePumpCurrent), Part(13, 1, s.doubleBuffer),
      Part(14, 10, s.rCounter), Part(24, 1, s.referenceDivideBy2), Part(25, 1, s.referenceDoubler),
      Part(26, 3, s.muxout), Part(29, 2, s.lowNoiseAndSpur)]
    case 3 => [Part(3, 12, s.clockDivider), Part(15, 2, s.clockDivMode), Part(18, 1, s.cycleSlipReduction)]
    case 4 => [
      Part(3, 2, s.outputPower), Part(5, 1, s.rfOutputEnable), Part(6, 2, s.auxOutputPower),
      Part(8, 1, s.auxOutputEnable), Part(9, 1, s.auxOutputSelect), Part(10, 1, s.muteTillLockDetect),
      Part(11, 1, s.vcoPowerDown), Part(12, 8, s.bandSelectClockDiv), Part(20, 3, s.rfDividerSelect),
      Part(23, 1, s.feedbackSelect)]
    case 5 => [Part(19, 2, Mask(2)), Part(21, 1, Mask(0)), Part(22, 2, s.ldPinMode)]
    case _ => []
  }

  function Term(p: Part): Word { Shl(And(p.value, Mask(p.width)), p.off) }

  function Pack(base: Word, parts: seq<Part>): Word
    decreases |parts|
  {
    if parts == [] then base else
    Or(Pack(base, parts[..|parts| - 1]), Term(parts[|parts| - 1]))
  }

  /** The address bits every register word starts from. */
  function AddressBits(addr: nat): Word { And(FromNumber(addr), Mask(3)) }

  function RegWord(s: Synth, addr: nat): Word { Pack(AddressBits(addr), Parts(s, addr)) }

  /** `get_reg`: the local `reg` accumulated term by term. */
  method GetReg(s: Synth, addr: nat) returns (reg: Word)
    ensures reg == RegWord(s, addr)
  {
    reg := And(FromNumber(addr), Mask(3));
    var parts := Parts(s, addr);
    for i := 0 to |parts|
      invariant reg == Pack(AddressBits(addr), parts[..i])
    {
      reg := Or(reg, Shl(And(parts[i].value, Mask(parts[i].width)), parts[i].off));
      assert parts[..i + 1][..i] == parts[..i];
    }
    assert parts[..|parts|] == parts;
  }

  /** Terms above the address bits, in increasing order without overlap. */
  predicate Ordered(parts: seq<Part>) {
    && (forall i :: 0 <= i < |parts| ==> 3 <= parts[i].off && parts[i].off + parts[i].width <= BITS)
    && (forall i, j :: 0 <= i < j < |parts| ==> parts[i].off + parts[i].width <= parts[j].off)
  }

  lemma PartsOrdered(s: Synth, addr: nat)
    ensures Ordered(Parts(s, addr))
  {
    if addr == 2 { Parts2Ordered(s); } else if addr == 4 { Parts4Ordered(s); } else {}
  }

  lemma Parts2Ordered(s: Synth)
    ensures Ordered(Parts(s, 2))
  {
  }

  lemma Parts4Ordered(s: Synth)
    ensures Ordered(Parts(s, 4))
  {
  }

  lemma {:induction false} PackHolds(base: Word, parts: seq<Part>, k: nat)
    requires Ordered(parts) && Fits(base, 3) && k < |parts|
    ensures Extract(Pack(base, parts), parts[k].off, parts[k].width) == And(parts[k].value, Mask(parts[k].width))
    decreases |parts|
  {
    var front, p := parts[..|parts| - 1], parts[|parts| - 1];
    PackClear(base, front, p.off);
    if k < |front| {
      PackHolds(base, front, k);
      assert forall i :: 0 <= i < p.off ==> !Term(p)[i];
      assert Extract(Pack(base, parts), parts[k].off, parts[k].width)
          == Extract(Pack(base, front), parts[k].off, parts[k].width);
    } else {
      assert Extract(Pack(base, parts), p.off, p.width) == And(p.value, Mask(p.width));
    }
  }

  /** Above its last term a packed word is clear. */
  lemma {:induction false} PackClear(base: Word, parts: seq<Part>, from: nat)
    requires Ordered(parts) && Fits(base, 3) && 3 <= from
    requires forall i :: 0 <= i < |parts| ==> parts[i].off + parts[i].width <= from
    ensures Fits(Pack(base, parts), from)
    decreases |parts|
  {
    if parts != [] { PackClear(base, parts[..|parts| - 1], from); }
  }

  lemma {:induction false} PackKeepsBase(base: Word, parts: seq<Part>)
    requires Ordered(parts)
    ensures forall i :: 0 <= i < 3 ==> Pack(base, parts)[i] == base[i]
    decreases |parts|
  {
    if parts != [] { PackKeepsBase(base, parts[..|parts| - 1]); }
  }

  /** Each word carries its own address, so it lands in its own latch. */
  lemma WordAddress(s: Synth, addr: nat)
    requires addr < 8
    ensures Address(RegWord(s, addr)) == addr
  {
    PartsOrdered(s, addr);
    PackKeepsBase(AddressBits(addr), Parts(s, addr));
    LowBitsAddress(addr, AddressBits(addr));
  }

  // ---- the chip's reading of its registers ----

  /** The fields of the six latched words, at the positions the chip gives them. */
  function Decode(r: Latches): Synth {
    Synth(
      frac := Extract(r[0], 3, 12), integer := Extract(r[0], 15, 16),
      mod := Extract(r[1], 3, 12), phase := Extract(r[1], 15, 12), prescaler := Extract(r[1], 27, 1),
      counterReset := Extract(r[2], 3, 1), cpThreeState := Extract(r[2], 4, 1), powerDown := Extract(r[2], 5, 1),
      pdPolarity := Extract(r[2], 6, 1), ldp := Extract(r[2], 7, 1), ldf := Extract(r[2], 8, 1),
      chargePumpCurrent := Extract(r[2], 9, 4), doubleBuffer := Extract(r[2], 13, 1),
      rCounter := Extract(r[2], 14, 10), referenceDivideBy2 := Extract(r[2], 24, 1),
      referenceDoubler := Extract(r[2], 25, 1), muxout := Extract(r[2], 26, 3), lowNoiseAndSpur := Extract(r[2], 29, 2),
      clockDivider := Extract(r[3], 3, 12), clockDivMode := Extract(r[3], 15, 2),
      cycleSlipReduction := Extract(r[3], 18, 1),
      outputPower := Extract(r[4], 3, 2), rfOutputEnable := Extract(r[4], 5, 1), auxOutputPower := Extract(r[4], 6, 2),
      auxOutputEnable := Extract(r[4], 8, 1), auxOutputSelect := Extract(r[4], 9, 1),
      muteTillLockDetect := Extract(r[4], 10, 1), vcoPowerDown := Extract(r[4], 11, 1),
      bandSelectClockDiv := Extract(r[4], 12, 8), rfDividerSelect := Extract(r[4], 20, 3),
      feedbackSelect := Extract(r[4], 23, 1),
      ldPinMode := Extract(r[5], 22, 2))
  }

  /** Every field within the width the chip gives it. */
  predicate InWidths(s: Synth) {
    && Fits(s.frac, 12) && Fits(s.integer, 16)
    && Fits(s.mod, 12) && Fits(s.phase, 12) && Fits(s.prescaler, 1)
    && Fits(s.counterReset, 1) && Fits(s.cpThreeState, 1) && Fits(s.powerDown, 1) && Fits(s.pdPolarity, 1)
    && Fits(s.ldp, 1) && Fits(s.ldf, 1) && Fits(s.chargePumpCurrent, 4) && Fits(s.doubleBuffer, 1)
    && Fits(s.rCounter, 10) && Fits(s.referenceDivideBy2, 1) && Fits(s.referenceDoubler, 1)
    && Fits(s.muxout, 3) && Fits(s.lowNoiseAndSpur, 2)
    && Fits(s.clockDivider, 12) && Fits(s.clockDivMode, 2) && Fits(s.cycleSlipReduction, 1)
    && Fits(s.outputPower, 2) && Fits(s.rfOutputEnable, 1) && Fits(s.auxOutputPower, 2)
    && Fits(s.auxOutputEnable, 1) && Fits(s.auxOutputSelect, 1) && Fits(s.muteTillLockDetect, 1)
    && Fits(s.vcoPowerDown, 1) && Fits(s.bandSelectClockDiv, 8) && Fits(s.rfDividerSelect, 3)
    && Fits(s.feedbackSelect, 1)
    && Fits(s.ldPinMode, 2)
  }

  predicate HoldsRegisters(r: Latches, s: Synth) {
    forall i :: 0 <= i < 6 ==> r[i] == RegWord(s, i)
  }

  lemma FieldRead(s: Synth, addr: nat, k: nat)
    requires k < |Parts(s, addr)|
    ensures var p := Parts(s, addr)[k]; Extract(RegWord(s, addr), p.off, p.width) == And(p.value, Mask(p.width))
  {
    PartsOrdered(s, addr);
    PackHolds(AddressBits(addr), Parts(s, addr), k);
  }

  lemma MaskFitting(v: Word, width: nat)
    requires Fits(v, width)
    ensures And(v, Mask(width)) == v
  {
  }

  lemma FieldReadExactly(s: Synth, addr: nat, k: nat, off: nat, width: nat, value: Word)
    requires k < |Parts(s, addr)| && Parts(s, addr)[k] == Part(off, width, value) && Fits(value, width)
    ensures Extract(RegWord(s, addr), off, width) == value
  {
    FieldRead(s, addr, k);
    MaskFitting(value, width);
  }

  /** The chip reads back every field as it was packed. */
  lemma DecodePacked(r: Latches, s: Synth)
    requires HoldsRegisters(r, s) && InWidths(s)
    ensures Decode(r) == s
  {
    Register0(s);
    Register1(s);
    Register2Low(s);
    Register2Middle(s);
    Register2Counter(s);
    Register2High(s);
    Register3(s);
    Register4Low(s);
    Register4High(s);
    FieldReadExactly(s, 5, 2, 22, 2, s.ldPinMode);
  }

  lemma Register0(s: Synth)
    requires InWidths(s)
    ensures Extract(RegWord(s, 0), 3, 12) == s.frac
         && Extract(RegWord(s, 0), 15, 16) == s.integer
  {
    FieldReadExactly(s, 0, 0, 3, 12, s.frac);
    FieldReadExactly(s, 0, 1, 15, 16, s.integer);
  }

  lemma Register1(s: Synth)
    requires InWidths(s)
    ensures Extract(RegWord(s, 1), 3, 12) == s.mod
         && Extract(RegWord(s, 1), 15, 12) == s.phase
         && Extract(RegWord(s, 1), 27, 1) == s.prescaler
  {
    FieldReadExactly(s, 1, 0, 3, 12, s.mod);
    FieldReadExactly(s, 1, 1, 15, 12, s.phase);
    FieldReadExactly(s, 1, 2, 27, 1, s.prescaler);
  }

  lemma Register2Low(s: Synth)
    requires InWidths(s)
    ensures Extract(RegWord(s, 2), 3, 1) == s.counterReset
         && Extract(RegWord(s, 2), 4, 1) == s.cpThreeState
         && Extract(RegWord(s, 2), 5, 1) == s.powerDown
         && Extract(RegWord(s, 2), 6, 1) == s.pdPolarity
  {
    FieldReadExactly(s, 2, 0, 3, 1, s.counterReset);
    FieldReadExactly(s, 2, 1, 4, 1, s.cpThreeState);
    FieldReadExactly(s, 2, 2, 5, 1, s.powerDown);
    FieldReadExactly(s, 2, 3, 6, 1, s.pdPolarity);
  }

  lemma Register2Middle(s: Synth)
    requires InWidths(s)
    ensures Extract(RegWord(s, 2), 7, 1) == s.ldp
         && Extract(RegWord(s, 2), 8, 1) == s.ldf
         && Extract(RegWord(s, 2), 9, 4) == s.chargePumpCurrent
  {
    FieldReadExactly(s, 2, 4, 7, 1, s.ldp);
    FieldReadExactly(s, 2, 5, 8, 1, s.ldf);
    FieldReadExactly(s, 2, 6, 9, 4, s.chargePumpCurrent);
  }

  lemma Register2Counter(s: Synth)
    requires InWidths(s)
    ensures Extract(RegWord(s, 2), 13, 1) == s.doubleBuffer
         && Extract(RegWord(s, 2), 14, 10) == s.rCounter
  {
    FieldReadExactly(s, 2, 7, 13, 1, s.doubleBuffer);
    FieldReadExactly(s, 2, 8, 14, 10, s.rCounter);
  }

  lemma Register2High(s: Synth)
    requires InWidths(s)
    ensures Extract(RegWord(s, 2), 24, 1) == s.referenceDivideBy2
         && Extract(RegWord(s, 2), 25, 1) == s.referenceDoubler
         && Extract(RegWord(s, 2), 26, 3) == s.muxout
         && Extract(RegWord(s, 2), 29, 2) == s.lowNoiseAndSpur
  {
    FieldReadExactly(s, 2, 9, 24, 1, s.referenceDivideBy2);
    FieldReadExactly(s, 2, 10, 25, 1, s.referenceDoubler);
    FieldReadExactly(s, 2, 11, 26, 3, s.muxout);
    FieldReadExactly(s, 2, 12, 29, 2, s.lowNoiseAndSpur);
  }

  lemma Register3(s: Synth)
    requires InWidths(s)
    ensures Extract(RegWord(s, 3), 3, 12) == s.clockDivider
         && Extract(RegWord(s, 3), 15, 2) == s.clockDivMode
         && Extract(RegWord(s, 3), 18, 1) == s.cycleSlipReduction
  {
    FieldReadExactly(s, 3, 0, 3, 12, s.clockDivider);
    FieldReadExactly(s, 3, 1, 15, 2, s.clockDivMode);
    FieldReadExactly(s, 3, 2, 18, 1, s.cycleSlipReduction);
  }

  lemma Register4Low(s: Synth)
    requires InWidths(s)
    ensures Extract(RegWord(s, 4), 3, 2) == s.outputPower
         && Extract(RegWord(s, 4), 5, 1) == s.rfOutputEnable
         && Extract(RegWord(s, 4), 6, 2) == s.auxOutputPower
         && Extract(RegWord(s, 4), 8, 1) == s.auxOutputEnable
         && Extract(RegWord(s, 4), 9, 1) == s.auxOutputSelect
  {
    FieldReadExactly(s, 4, 0, 3, 2, s.outputPower);
    FieldReadExactly(s, 4, 1, 5, 1, s.rfOutputEnable);
    FieldReadExactly(s, 4, 2, 6, 2, s.auxOutputPower);
    FieldReadExactly(s, 4, 3, 8, 1, s.auxOutputEnable);
    FieldReadExactly(s, 4, 4, 9, 1, s.auxOutputSelect);
  }

  lemma Register4High(s: Synth)
    requires InWidths(s)
    ensures Extract(RegWord(s, 4), 10, 1) == s.muteTillLockDetect
         && Extract(RegWord(s, 4), 11, 1) == s.vcoPowerDown
         && Extract(RegWord(s, 4), 12, 8) == s.bandSelectClockDiv
         && Extract(RegWord(s, 4), 20, 3) == s.rfDividerSelect
         && Extract(RegWord(s, 4), 23, 1) == s.feedbackSelect
  {
    FieldReadExactly(s, 4, 5, 10, 1, s.muteTillLockDetect);
    FieldReadExactly(s, 4, 6, 11, 1, s.vcoPowerDown);
    FieldReadExactly(s, 4, 7, 12, 8, s.bandSelectClockDiv);
    FieldReadExactly(s, 4, 8, 20, 3, s.rfDividerSelect);
    FieldReadExactly(s, 4, 9, 23, 1, s.feedbackSelect);
  }

  /** Outside its terms a packed word is clear above the base. */
  lemma {:induction false} PackOutside(base: Word, parts: seq<Part>, i: nat)
    requires Fits(base, 3) && 3 <= i < BITS
    requires forall k :: 0 <= k < |parts| ==> !(parts[k].off <= i < parts[k].off + parts[k].width)
    ensures !Pack(base, parts)[i]
    decreases |parts|
  {
    if parts != [] { PackOutside(base, parts[..|parts| - 1], i); }
  }

  /** The bits of the six words that no field reaches. */
  predicate Spare(addr: nat, i: nat) {
    match addr
    case 0 => i == 31
    case 1 => 28 <= i < 32
    case 2 => i == 31
    case 3 => i == 17 || 19 <= i < 32
    case 4 => 24 <= i < 32
    case 5 => 3 <= i < 19 || i == 21 || 24 <= i < 32
    case _ => false
  }

  /** They are clear, whatever the fields hold, but for the two of register 5 that are always set. */
  lemma SpareBits(s: Synth, addr: nat, i: nat)
    ensures Spare(addr, i) ==> !RegWord(s, addr)[i]
    ensures RegWord(s, 5)[19] && RegWord(s, 5)[20]
  {
    if Spare(addr, i) {
      if addr == 5 && i == 21 { FieldRead(s, 5, 1); SpareRead(s, 5, 21); } else { NotReached(s, addr, i); }
    }
    FieldRead(s, 5, 0);
    SetRead(RegWord(s, 5));
  }

  lemma SpareRead(s: Synth, addr: nat, i: nat)
    requires i < BITS && Extract(RegWord(s, addr), i, 1) == And(Mask(0), Mask(1))
    ensures !RegWord(s, addr)[i]
  {
    assert Extract(RegWord(s, addr), i, 1)[0] == RegWord(s, addr)[i];
  }

  lemma SetRead(w: Word)
    requires Extract(w, 19, 2) == And(Mask(2), Mask(2))
    ensures w[19] && w[20]
  {
    assert Extract(w, 19, 2)[0] == w[19] && Extract(w, 19, 2)[1] == w[20];
  }

  lemma NotReached(s: Synth, addr: nat, i: nat)
    requires Spare(addr, i) && !(addr == 5 && i == 21)
    ensures !RegWord(s, addr)[i]
  {
    assert forall k :: 0 <= k < |Parts(s, addr)| ==>
      !(Parts(s, addr)[k].off <= i < Parts(s, addr)[k].off + Parts(s, addr)[k].width);
    PackOutside(AddressBits(addr), Parts(s, addr), i);
  }

  // ---- the order of the words ----

  /** A synthesiser with double-buffered registers receives words, first to last. */
  function ReceiveAll(c: ShadowRegs.Pll, words: seq<Word>): ShadowRegs.Pll
    decreases |words|
  {
    if words == [] then c else
    ShadowRegs.Receive(ReceiveAll(c, words[..|words| - 1]), words[|words| - 1])
  }

  lemma ReceiveNext(c: ShadowRegs.Pll, words: seq<Word>, w: Word)
    ensures ReceiveAll(c, words + [w]) == ShadowRegs.Receive(ReceiveAll(c, words), w)
  {
    assert (words + [w])[..|words|] == words;
  }

  lemma ReceiveAt(c: ShadowRegs.Pll, w: Word, i: nat)
    requires Address(w) == i < 6
    ensures var after := ShadowRegs.Receive(c, w);
            && after.latched == c.latched[i := w]
            && after.active == (if i == 1 || i == 4 then c.active
                                else if i == 0 then c.active[0 := w][1 := c.latched[1]][4 := c.latched[4]]
                                else c.active[i := w])
  {
  }

  /** Six words, each with its own address. */
  predicate OwnAddresses(r: ShadowRegs.Six) { forall i :: 0 <= i < 6 ==> Address(r[i]) == i }

  /** Whatever such a synthesiser was doing, after these words it works with these six. */
  ghost predicate TakeEffect(words: seq<Word>, r: ShadowRegs.Six) {
    forall c: ShadowRegs.Pll :: ReceiveAll(c, words).active == r
  }

  /** The words of registers 5 down to `i + 1`. */
  function Descending(r: ShadowRegs.Six, i: int): seq<Word>
    requires -1 <= i <= 5
    decreases 5 - i
  {
    if i == 5 then [] else Descending(r, i + 1) + [r[i + 1]]
  }

  lemma AllSix(r: ShadowRegs.Six)
    ensures Descending(r, -1) == [r[5], r[4], r[3], r[2], r[1], r[0]]
  {
    assert Descending(r, 3) == [r[5], r[4]];
    assert Descending(r, 1) == [r[5], r[4], r[3], r[2]];
  }

  /** Register `j` is latched, and in effect but for 1 and 4. */
  predicate Arrived(c: ShadowRegs.Pll, w: Word, j: nat)
    requires j < 6
  {
    c.latched[j] == w && (j != 1 && j != 4 ==> c.active[j] == w)
  }

  lemma ReceiveArrives(c: ShadowRegs.Pll, r: ShadowRegs.Six, i: nat)
    requires OwnAddresses(r) && 1 <= i < 6 && forall j :: i < j < 6 ==> Arrived(c, r[j], j)
    ensures forall j :: i <= j < 6 ==> Arrived(ShadowRegs.Receive(c, r[i]), r[j], j)
  {
    ReceiveAt(c, r[i], i);
  }

  lemma {:induction false} DescendingSoFar(c: ShadowRegs.Pll, r: ShadowRegs.Six, i: int)
    requires OwnAddresses(r) && 0 <= i <= 5
    ensures forall j :: i < j < 6 ==> Arrived(ReceiveAll(c, Descending(r, i)), r[j], j)
    decreases 5 - i
  {
    if i < 5 {
      DescendingSoFar(c, r, i + 1);
      ReceiveNext(c, Descending(r, i + 1), r[i + 1]);
      ReceiveArrives(ReceiveAll(c, Descending(r, i + 1)), r, i + 1);
    }
  }

  /** Registers 5 down to 0 all take effect: the double-buffered 1 and 4 with register 0, which
      comes last. */
  lemma DescendingTakesEffect(r: ShadowRegs.Six)
    requires OwnAddresses(r)
    ensures TakeEffect(Descending(r, -1), r)
  {
    forall c: ShadowRegs.Pll ensures ReceiveAll(c, Descending(r, -1)).active == r {
      DescendingSoFar(c, r, 0);
      ReceiveNext(c, Descending(r, 0), r[0]);
      ZeroCompletes(ReceiveAll(c, Descending(r, 0)), r);
    }
  }

  lemma ZeroCompletes(c: ShadowRegs.Pll, r: ShadowRegs.Six)
    requires OwnAddresses(r) && forall j :: 0 < j < 6 ==> Arrived(c, r[j], j)
    ensures ShadowRegs.Receive(c, r[0]).active == r
  {
    ReceiveAt(c, r[0], 0);
  }

  /** In the other order they do not: 1 and 4 stay as they were latched before. */
  lemma AscendingLeavesStale(c: ShadowRegs.Pll, r: ShadowRegs.Six)
    requires OwnAddresses(r)
    ensures var after := ReceiveAll(c, [r[0]] + [r[1]] + [r[2]] + [r[3]] + [r[4]] + [r[5]]);
            after.active[1] == c.latched[1] && after.active[4] == c.latched[4]
  {
    var words := [r[0]];
    assert [] + [r[0]] == words;
    ReceiveNext(c, [], r[0]);
    ReceiveAt(c, r[0], 0);
    StaysStale(c, words, r, 1);
    StaysStale(c, words + [r[1]], r, 2);
    StaysStale(c, words + [r[1]] + [r[2]], r, 3);
    StaysStale(c, words + [r[1]] + [r[2]] + [r[3]], r, 4);
    StaysStale(c, words + [r[1]] + [r[2]] + [r[3]] + [r[4]], r, 5);
  }

  lemma StaysStale(c: ShadowRegs.Pll, words: seq<Word>, r: ShadowRegs.Six, i: nat)
    requires OwnAddresses(r) && 1 <= i < 6
    ensures var before, after := ReceiveAll(c, words), ReceiveAll(c, words + [r[i]]);
            after.active[1] == before.active[1] && after.active[4] == before.active[4]
  {
    ReceiveNext(c, words, r[i]);
    ReceiveAt(ReceiveAll(c, words), r[i], i);
  }

  /** A chip has latched six more words, in descending order, and works with all of them. */
  ghost predicate Reprogrammed(was: Chip, now: Chip) {
    var w := now.latched;
    && now.history == was.history + [w[5], w[4], w[3], w[2], w[1], w[0]]
    && TakeEffect(now.history[|was.history|..], w[..6])
    && w[6..] == was.latched[6..]
  }

  /** Only the channel's four pins differ, and they are idle. */
  predicate OnlyPins(p: Pins, was: Regs, now: Regs) {
    && Pin(p.ce) && Pin(p.data) && Pin(p.clk) && Pin(p.le)
    && now == was[1 := now[1]] && SameButPins(p, was[1], now[1]) && Idle(p, now[1])
  }

  lemma OnlyPinsAgain(p: Pins, was: Regs, between: Regs, now: Regs)
    requires between == was || OnlyPins(p, was, between)
    requires OnlyPins(p, between, now)
    ensures OnlyPins(p, was, now)
  {
  }

  /** The register-writing loop of `main`. Whatever the pins and latches were, the selected
      synthesiser latches the six words in descending order and nothing else, so it reads every
      field as it was set and, double-buffered as it is, works with all of them; the other
      synthesiser and every bit of the register file but the channel's four pins are untouched. */
  method ProgramSynth(board: Board, channel: int, s: Synth) returns (rc: int)
    requires channel == 1 || channel == 2
    modifies board, board.file
    ensures rc == 0
    ensures HoldsRegisters(board.Selected(channel).latched, s)
    ensures Reprogrammed(old(board.Selected(channel)), board.Selected(channel))
    ensures InWidths(s) ==> Decode(board.Selected(channel).latched) == s
    ensures board.Other(channel) == old(board.Other(channel))
    ensures OnlyPins(board.PinsOf(channel), old(board.file.pio), board.file.pio)
  {
    ghost var words := SixWords(s);
    rc := SendWords(board, channel, s, words);
    ghost var was, now := old(board.Selected(channel)), board.Selected(channel);
    assert now.latched[..6] == words;
    SentAll(was, now, words);
    if InWidths(s) { DecodePacked(now.latched, s); }
  }

  /** The six words of the fields. */
  function SixWords(s: Synth): (r: ShadowRegs.Six)
    ensures OwnAddresses(r) && forall i :: 0 <= i < 6 ==> r[i] == RegWord(s, i)
  {
    var r := seq(6, k requires 0 <= k < 6 => RegWord(s, k));
    assert forall i :: 0 <= i < 6 ==> Address(r[i]) == i by {
      forall i | 0 <= i < 6 ensures Address(r[i]) == i { WordAddress(s, i); }
    }
    r
  }

  /** The words of registers 5 down to `i + 1` have been latched since `was`, and no others. */
  predicate Sent(was: Chip, now: Chip, words: ShadowRegs.Six, i: int) {
    && -1 <= i <= 5 && now.history == was.history + Descending(words, i)
    && (forall j :: i < j < 6 ==> now.latched[j] == words[j])
    && now.latched[6..] == was.latched[6..]
  }

  lemma SentNext(was: Chip, now: Chip, words: ShadowRegs.Six, i: nat)
    requires i < 6 && Sent(was, now, words, i)
    ensures Sent(was, Chip(words[i], now.latched[i := words[i]], now.history + [words[i]]), words, i - 1)
  {
    assert Descending(words, i - 1) == Descending(words, i) + [words[i]];
  }

  lemma SentAll(was: Chip, now: Chip, words: ShadowRegs.Six)
    requires Sent(was, now, words, -1) && OwnAddresses(words) && now.latched[..6] == words
    ensures Reprogrammed(was, now)
  {
    AllSix(words);
    DescendingTakesEffect(words);
    assert now.history[|was.history|..] == Descending(words, -1);
    assert forall j :: 0 <= j < 6 ==> now.latched[j] == words[j];
  }

  /** Line 122. */
  method SendWord(board: Board, channel: int, s: Synth, i: nat, ghost word: Word) returns (rc: int)
    requires (channel == 1 || channel == 2) && i < 6 && word == RegWord(s, i)
    modifies board, board.file
    ensures rc == 0
    ensures var was := old(board.Selected(channel));
            board.Selected(channel) == Chip(word, was.latched[i := word], was.history + [word])
    ensures board.Other(channel) == old(board.Other(channel))
    ensures OnlyPins(board.PinsOf(channel), old(board.file.pio), board.file.pio)
  {
    var reg := GetReg(s, i);
    WordAddress(s, i);
    rc := board.WriteReg(channel, reg);
  }

  /** Lines 120-123. */
  method SendWords(board: Board, channel: int, s: Synth, ghost words: ShadowRegs.Six) returns (rc: int)
    requires channel == 1 || channel == 2
    requires forall k :: 0 <= k < 6 ==> words[k] == RegWord(s, k)
    modifies board, board.file
    ensures rc == 0
    ensures Sent(old(board.Selected(channel)), board.Selected(channel), words, -1)
    ensures board.Other(channel) == old(board.Other(channel))
    ensures OnlyPins(board.PinsOf(channel), old(board.file.pio), board.file.pio)
  {
    rc := 0;
    var i := 5;
    ghost var was, pio, pins := board.Selected(channel), board.file.pio, board.PinsOf(channel);
    while i >= 0
      invariant -1 <= i <= 5 && rc == 0
      invariant Sent(was, board.Selected(channel), words, i)
      invariant board.Other(channel) == old(board.Other(channel))
      invariant if i == 5 then board.file.pio == pio else OnlyPins(pins, pio, board.file.pio)
      decreases i
    {
      SentNext(was, board.Selected(channel), words, i);
      ghost var between := board.file.pio;
      var r := SendWord(board, channel, s, i, words[i]);
      OnlyPinsAgain(pins, pio, between, board.file.pio);
      rc := if rc == 0 then r else rc;
      i := i - 1;
    }
  }
}
