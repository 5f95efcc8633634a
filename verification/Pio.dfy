/** The register file behind `ioctl_helper` (sw/langford_driver/langford.c:538-716): named
    fields packed into eight 32-bit parallel I/O registers, changed by read-modify-write.
    A field is known by its GET command number (sw/langford_driver/langford_ioctl.h:19-157). */
module Pio {
  import opened Options
  import opened Words

  const REGS: nat := 8

  const N61CE := 200
  const N61DATA := 202
  const N61CLK := 204
  const N61LE := 206
  const N62CE := 208
  const N62DATA := 210
  const N62CLK := 212
  const N62LE := 214
  const RX_PHASE := 400
  const TX_PHASE := 500
  const RX_REV_FREQ := 604
  const TX_REV_FREQ := 606
  const GPIO_OUT := 624
  const RX_BASEBAND := 626

  datatype Spot = Spot(reg: nat, off: nat, width: nat)

  /** The register PIO0 to PIO7, bit offset and width of each field. The command numbers run
      with the bit offsets, so the two switches come down to a few ranges. */
  function Place(get: int): Option<Spot> {
    var even := get % 2 == 0;
    if 100 <= get <= 104 && even then Some(Spot(0, 8 * ((get - 100) / 2), 8))        // N21at0 .. N3GAIN
    else if 200 <= get <= 260 && even then Some(Spot(1, (get - 200) / 2, 1))         // N61CE .. DACSDO
    else if 300 <= get <= 304 then Some(Spot(2, get - 300, 1))                       // N61MUXOUT .. N7SDO
    else if get == 305 then Some(Spot(2, 5, 5))                                      // GPIOin
    else if get == RX_PHASE then Some(Spot(3, 0, 32))
    else if get == TX_PHASE then Some(Spot(4, 0, 32))
    else if 600 <= get <= 602 && even then Some(Spot(5, 8 * ((get - 600) / 2), 8))   // RXDecEn, TXIntEn
    else if 604 <= get <= 622 && even then Some(Spot(5, 16 + (get - 604) / 2, 1))    // RXRevFreq .. TxIsSigned
    else if get == GPIO_OUT then Some(Spot(5, 26, 5))
    else if get == RX_BASEBAND then Some(Spot(5, 30, 1))
    else if 700 <= get <= 706 && even then Some(Spot(6, 4 * ((get - 700) / 2), 4))   // RxErrorCorr gains, delays
    else if 708 <= get <= 710 && even then Some(Spot(6, 16 + 8 * ((get - 708) / 2), 8))
    else if 800 <= get <= 806 && even then Some(Spot(7, 4 * ((get - 800) / 2), 4))   // TxErrorCorr gains, delays
    else if 808 <= get <= 810 && even then Some(Spot(7, 16 + 8 * ((get - 808) / 2), 8))
    else None
  }

  /** The fields one by one. */
  function Listed(get: int): Option<Spot> {
    match get
    case 100 => Some(Spot(0, 0, 8))  // N21at0
    case 102 => Some(Spot(0, 8, 8))  // N22at0
    case 104 => Some(Spot(0, 16, 8))  // N3GAIN
    case 200 => Some(Spot(1, 0, 1))  // N61CE
    case 202 => Some(Spot(1, 1, 1))  // N61DATA
    case 204 => Some(Spot(1, 2, 1))  // N61CLK
    case 206 => Some(Spot(1, 3, 1))  // N61LE
    case 208 => Some(Spot(1, 4, 1))  // N62CE
    case 210 => Some(Spot(1, 5, 1))  // N62DATA
    case 212 => Some(Spot(1, 6, 1))  // N62CLK
    case 214 => Some(Spot(1, 7, 1))  // N62LE
    case 216 => Some(Spot(1, 8, 1))  // N3ENB
    case 218 => Some(Spot(1, 9, 1))  // N3HILO
    case 220 => Some(Spot(1, 10, 1))  // NASRxA
    case 222 => Some(Spot(1, 11, 1))  // NASTxA
    case 224 => Some(Spot(1, 12, 1))  // N7CLK
    case 226 => Some(Spot(1, 13, 1))  // N7CS
    case 228 => Some(Spot(1, 14, 1))  // N7SDI
    case 230 => Some(Spot(1, 15, 1))  // DACIQSel
    case 232 => Some(Spot(1, 16, 1))  // DACReset
    case 234 => Some(Spot(1, 17, 1))  // DACCSB
    case 236 => Some(Spot(1, 18, 1))  // DACSDIO
    case 238 => Some(Spot(1, 19, 1))  // DACSClk
    case 240 => Some(Spot(1, 20, 1))  // ADCAnOE
    case 242 => Some(Spot(1, 21, 1))  // ADCAPD
    case 244 => Some(Spot(1, 22, 1))  // ADCASClk
    case 246 => Some(Spot(1, 23, 1))  // ADCASDIO
    case 248 => Some(Spot(1, 24, 1))  // ADCAnCS
    case 250 => Some(Spot(1, 25, 1))  // ADCBnOE
    case 252 => Some(Spot(1, 26, 1))  // ADCBPD
    case 254 => Some(Spot(1, 27, 1))  // ADCBSClk
    case 256 => Some(Spot(1, 28, 1))  // ADCBSDIO
    case 258 => Some(Spot(1, 29, 1))  // ADCBnCS
    case 260 => Some(Spot(1, 30, 1))  // DACSDO
    case 300 => Some(Spot(2, 0, 1))  // N61MUXOUT
    case 301 => Some(Spot(2, 1, 1))  // N61LD
    case 302 => Some(Spot(2, 2, 1))  // N62MUXOUT
    case 303 => Some(Spot(2, 3, 1))  // N62LD
    case 304 => Some(Spot(2, 4, 1))  // N7SDO
    case 305 => Some(Spot(2, 5, 5))  // GPIOin
    case 400 => Some(Spot(3, 0, 32))  // RXPhase
    case 500 => Some(Spot(4, 0, 32))  // TXPhase
    case 600 => Some(Spot(5, 0, 8))  // RXDecEn
    case 602 => Some(Spot(5, 8, 8))  // TXIntEn
    case 604 => Some(Spot(5, 16, 1))  // RXRevFreq
    case 606 => Some(Spot(5, 17, 1))  // TXRevFreq
    case 608 => Some(Spot(5, 18, 1))  // RxDspEn
    case 610 => Some(Spot(5, 19, 1))  // TxDspEn
    case 612 => Some(Spot(5, 20, 1))  // NRXTALSEL
    case 614 => Some(Spot(5, 21, 1))  // NRVCOSEL
    case 616 => Some(Spot(5, 22, 1))  // RxFifoClr
    case 618 => Some(Spot(5, 23, 1))  // TxFifoClr
    case 620 => Some(Spot(5, 24, 1))  // RxIsSigned
    case 622 => Some(Spot(5, 25, 1))  // TxIsSigned
    case 624 => Some(Spot(5, 26, 5))  // GPIOout
    case 626 => Some(Spot(5, 30, 1))  // RxBaseband
    case 700 => Some(Spot(6, 0, 4))  // RxErrorCorrGainQ
    case 702 => Some(Spot(6, 4, 4))  // RxErrorCorrGainI
    case 704 => Some(Spot(6, 8, 4))  // RxErrorCorrGroupDelayQ
    case 706 => Some(Spot(6, 12, 4))  // RxErrorCorrGroupDelayI
    case 708 => Some(Spot(6, 16, 8))  // RxErrorCorrDCOffsetQ
    case 710 => Some(Spot(6, 24, 8))  // RxErrorCorrDCOffsetI
    case 800 => Some(Spot(7, 0, 4))  // TxErrorCorrGainQ
    case 802 => Some(Spot(7, 4, 4))  // TxErrorCorrGainI
    case 804 => Some(Spot(7, 8, 4))  // TxErrorCorrGroupDelayQ
    case 806 => Some(Spot(7, 12, 4))  // TxErrorCorrGroupDelayI
    case 808 => Some(Spot(7, 16, 8))  // TxErrorCorrDCOffsetQ
    case 810 => Some(Spot(7, 24, 8))  // TxErrorCorrDCOffsetI
    case _ => None
  }

  /** They are those of the ranges, and no other number is a GET command. */
  lemma PlacesAre(get: int)
    ensures Place(get) == Listed(get)
  {
    if get < 230 { Below230(get); } else if get < 300 { Below300(get); }
    else if get < 700 { Below700(get); } else { From700(get); }
  }

  lemma Below230(get: int)
    requires get < 230
    ensures Place(get) == Listed(get)
  {
  }

  lemma Below300(get: int)
    requires 230 <= get < 300
    ensures Place(get) == Listed(get)
  {
  }

  lemma Below700(get: int)
    requires 300 <= get < 700
    ensures Place(get) == Listed(get)
  {
  }

  lemma From700(get: int)
    requires 700 <= get
    ensures Place(get) == Listed(get)
  {
  }

  type Field = f: int | Place(f).Some? witness N61CE

  /** The input pins of PIO2 have no SET command. */
  predicate Writable(f: Field) { Place(f).value.reg != 2 }

  /** `GPIOout` is five bits at 26 and `RxBaseband` one bit at 30: they share bit 30. */
  predicate Alias(f: Field, g: Field) {
    (f == GPIO_OUT && g == RX_BASEBAND) || (f == RX_BASEBAND && g == GPIO_OUT)
  }

  lemma PlaceOk(f: Field)
    ensures var p := Place(f).value; p.reg < REGS && 0 < p.width && p.off + p.width <= BITS
  {
  }

  predicate Apart(p: Spot, q: Spot) {
    p.reg != q.reg || p.off + p.width <= q.off || q.off + q.width <= p.off
  }

  /** Apart from the alias, no two fields share a bit. */
  lemma FieldsApart(f: Field, g: Field)
    requires f != g && !Alias(f, g)
    ensures Apart(Place(f).value, Place(g).value)
  {
    RegisterOf(f);
    RegisterOf(g);
    if f / 100 == g / 100 {
      if f < g { Ordered(f, g); } else { Ordered(g, f); }
    }
  }

  lemma RegisterOf(f: Field)
    ensures Place(f).value.reg == f / 100 - 1
  {
  }

  lemma Ordered(f: Field, g: Field)
    requires f < g && f / 100 == g / 100 && !Alias(f, g)
    ensures Place(f).value.off + Place(f).value.width <= Place(g).value.off
  {
    if f < 300 { OrderedLow(f, g); } else if f < 600 { OrderedMiddle(f, g); }
    else if f < 700 { OrderedControl(f, g); } else { OrderedHigh(f, g); }
  }

  lemma OrderedLow(f: Field, g: Field)
    requires f < g && f / 100 == g / 100 && !Alias(f, g) && f < 300
    ensures Place(f).value.off + Place(f).value.width <= Place(g).value.off
  {
    if f < 200 {} else {}
  }

  lemma OrderedMiddle(f: Field, g: Field)
    requires f < g && f / 100 == g / 100 && !Alias(f, g) && 300 <= f < 600
    ensures Place(f).value.off + Place(f).value.width <= Place(g).value.off
  {
    if f < 400 {} else {}
  }

  lemma OrderedControl(f: Field, g: Field)
    requires f < g && f / 100 == g / 100 && !Alias(f, g) && 600 <= f < 700
    ensures Place(f).value.off + Place(f).value.width <= Place(g).value.off
  {
    if g < 604 {} else if g < 624 {} else if g == GPIO_OUT {} else {}
  }

  lemma OrderedHigh(f: Field, g: Field)
    requires f < g && f / 100 == g / 100 && !Alias(f, g) && 700 <= f
    ensures Place(f).value.off + Place(f).value.width <= Place(g).value.off
  {
    if g < 708 {} else if g < 800 {} else if g < 808 {} else {}
  }

  // ---- the register file ----

  type Regs = r: seq<Word> | |r| == REGS witness seq(REGS, _ => ZERO)

  function ReadField(pio: Regs, f: Field): Word {
    PlaceOk(f);
    var p := Place(f).value;
    Extract(pio[p.reg], p.off, p.width)
  }

  function WriteField(pio: Regs, f: Field, v: Word): Regs {
    PlaceOk(f);
    var p := Place(f).value;
    pio[p.reg := Insert(pio[p.reg], p.off, p.width, v)]
  }

  /** The range check as written: a signed comparison with the field's largest value only, and
      none for 32-bit fields. */
  predicate Refused(f: Field, v: Word) {
    var w := Place(f).value.width;
    w < BITS && Signed(v) > Pow2(w) - 1
  }

  const EINVAL: int := 22

  class RegisterFile {
    var pio: Regs

    constructor (pio: Regs)
      ensures this.pio == pio
    {
      this.pio := pio;
    }

    /** `ioctl_helper`: `arg` is the value pointed to before the call and `out` after it. A SET
        command is numbered one above its GET. */
    method IoctlHelper(cmd: int, arg: Word) returns (rc: int, out: Word)
      modifies this
      ensures Place(cmd).Some? ==> rc == 0 && out == ReadField(pio, cmd) && pio == old(pio)
      ensures Place(cmd).None? && Place(cmd - 1).Some? && !(300 <= cmd - 1 <= 305) && !Refused(cmd - 1, arg) ==>
                rc == 0 && out == arg && pio == WriteField(old(pio), cmd - 1, arg)
      ensures Place(cmd).None? && (Place(cmd - 1).Some? && !(300 <= cmd - 1 <= 305) ==> Refused(cmd - 1, arg)) ==>
                rc == -EINVAL && out == arg && pio == old(pio)
    {
      out := arg;
      rc := 0;
      if Place(cmd).Some? {
        PlaceOk(cmd);
        var p := Place(cmd).value;
        out := And(Shr(pio[p.reg], p.off), Mask(p.width));
      } else if Place(cmd - 1).Some? && Writable(cmd - 1) {
        PlaceOk(cmd - 1);
        var p := Place(cmd - 1).value;
        if p.width < BITS && Signed(arg) > Pow2(p.width) - 1 {
          rc := -EINVAL;
        } else {
          pio := pio[p.reg := Or(And(pio[p.reg], Not(Shl(Mask(p.width), p.off))), Shl(arg, p.off))];
        }
      } else {
        rc := -EINVAL;
      }
    }

    /** `cdev_ioctl`, when user memory is accessible: whatever the helper returns, the caller
        sees success. */
    method CdevIoctl(cmd: int, arg: Word) returns (rc: int, out: Word)
      modifies this
      ensures rc == 0
      ensures Place(cmd).Some? ==> out == ReadField(pio, cmd) && pio == old(pio)
      ensures Place(cmd).None? && Place(cmd - 1).Some? && !(300 <= cmd - 1 <= 305) && !Refused(cmd - 1, arg) ==>
                out == arg && pio == WriteField(old(pio), cmd - 1, arg)
      ensures Place(cmd).None? && (Place(cmd - 1).Some? && !(300 <= cmd - 1 <= 305) ==> Refused(cmd - 1, arg)) ==>
                out == arg && pio == old(pio)
    {
      rc, out := IoctlHelper(cmd, arg);
      rc := 0;
    }
  }

  // ---- what a SET does to every field ----

  predicate InRange(f: Field, v: Word) { Fits(v, Place(f).value.width) }

  /** The value of `g`, `was` before, after `f` is set to `v`: the value set, nothing for any
      other field, and the shared bit 30 for the two that alias. */
  function Effect(f: Field, v: Word, g: Field, was: Word): Word {
    if f == g then v
    else if f == GPIO_OUT && g == RX_BASEBAND then Bit(v[4])
    else if f == RX_BASEBAND && g == GPIO_OUT then was[4 := v[0]]
    else was
  }

  /** One in-range SET refines the update of a map from fields to values. */
  lemma SetRefinesUpdate(pio: Regs, f: Field, v: Word, g: Field)
    requires InRange(f, v)
    ensures ReadField(WriteField(pio, f, v), g) == Effect(f, v, g, ReadField(pio, g))
  {
    PlaceOk(f);
    PlaceOk(g);
    var p, q := Place(f).value, Place(g).value;
    if f == g {
      ExtractInserted(pio[p.reg], p.off, p.width, v);
    } else if !Alias(f, g) {
      FieldsApart(f, g);
      if p.reg == q.reg { ExtractOther(pio[p.reg], p.off, p.width, v, q.off, q.width); }
    }
  }

  datatype Setting = Setting(f: Field, v: Word)

  function RunSets(pio: Regs, sets: seq<Setting>): Regs
    decreases |sets|
  {
    if sets == [] then pio else
    var s := sets[|sets| - 1];
    WriteField(RunSets(pio, sets[..|sets| - 1]), s.f, s.v)
  }

  /** The same settings made on a map from fields to values. */
  function RunMap(sets: seq<Setting>, g: Field, initial: Word): Word
    decreases |sets|
  {
    if sets == [] then initial else
    var s := sets[|sets| - 1];
    Effect(s.f, s.v, g, RunMap(sets[..|sets| - 1], g, initial))
  }

  /** After any sequence of in-range SETs, GET answers as the map does. */
  lemma {:induction false} SetsRefineMap(pio: Regs, sets: seq<Setting>, g: Field)
    requires forall i :: 0 <= i < |sets| ==> InRange(sets[i].f, sets[i].v)
    ensures ReadField(RunSets(pio, sets), g) == RunMap(sets, g, ReadField(pio, g))
    decreases |sets|
  {
    if sets != [] {
      var front, s := sets[..|sets| - 1], sets[|sets| - 1];
      SetsRefineMap(pio, front, g);
      SetRefinesUpdate(RunSets(pio, front), s.f, s.v, g);
    }
  }

  /** So GET returns the last value set, if no later SET names the field or its alias. */
  lemma {:induction false} GetReturnsLastSet(pio: Regs, sets: seq<Setting>, g: Field, k: nat)
    requires forall i :: 0 <= i < |sets| ==> InRange(sets[i].f, sets[i].v)
    requires k < |sets| && sets[k].f == g
    requires forall i :: k < i < |sets| ==> sets[i].f != g && !Alias(sets[i].f, g)
    ensures ReadField(RunSets(pio, sets), g) == sets[k].v
    decreases |sets|
  {
    var front, s := sets[..|sets| - 1], sets[|sets| - 1];
    SetRefinesUpdate(RunSets(pio, front), s.f, s.v, g);
    if k < |front| { GetReturnsLastSet(pio, front, g, k); }
  }

  // ---- arguments the check lets through ----

  /** A SET did what its caller meant: GET returns the argument, and only aliases moved. */
  ghost predicate Faithful(pio: Regs, f: Field, v: Word) {
    var after := WriteField(pio, f, v);
    && ReadField(after, f) == v
    && forall g: Field :: g != f && !Alias(f, g) ==> ReadField(after, g) == ReadField(pio, g)
  }

  /** An argument that fits its field always passes the check, and of the others only a negative one or
      one for a 32-bit field does. */
  lemma RefusedIff(f: Field, v: Word)
    ensures Refused(f, v) <==> Place(f).value.width < BITS && Signed(v) >= 0 && !InRange(f, v)
  {
    PlaceOk(f);
    SmallIffHighClear(v, Place(f).value.width);
  }

  /** For a field narrower than 32 bits, an argument that passes the check is stored faithfully
      if and only if it is not negative: the check has no lower bound. */
  lemma FaithfulIffNonNegative(pio: Regs, f: Field, v: Word)
    requires Place(f).value.width < BITS && !Refused(f, v)
    ensures Faithful(pio, f, v) <==> Signed(v) >= 0
  {
    var w := Place(f).value.width;
    if Signed(v) >= 0 {
      SmallIffHighClear(v, w);
      assert InRange(f, v);
      forall g: Field ensures ReadField(WriteField(pio, f, v), g) == Effect(f, v, g, ReadField(pio, g)) {
        SetRefinesUpdate(pio, f, v, g);
      }
    } else {
      assert v[BITS - 1] && !ReadField(WriteField(pio, f, v), f)[BITS - 1];
    }
  }

  /** Setting one pin to -1 raises every pin above it. */
  lemma NegativeArgumentClobbers(pio: Regs, v: Word)
    requires v == seq(BITS, _ => true)
    ensures !Refused(N61CE, v) && ReadField(WriteField(pio, N61CE, v), N62LE) == Bit(true)
  {
  }
}
