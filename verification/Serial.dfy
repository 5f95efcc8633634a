/** The two bit-banged serial writers, driving PIO1 pins through the driver's ioctl:
    `WriteReg` (sw/langford_driver/libs/fsynth.cpp:184-228) into a synthesiser that shifts on
    rising CLK and latches on rising LE, and `LangordSpiWrite`
    (sw/langford_driver/langford_spi.cpp:15-39) into a slave that samples on rising clock
    while its chip select is low. */
module Serial {
  import opened Options
  import opened Words
  import opened Pio

  /** The one-bit fields of PIO1. */
  predicate Pin(f: int) { 200 <= f <= 260 && f % 2 == 0 }

  function PinBit(f: int): nat
    requires Pin(f)
  {
    (f - 200) / 2
  }

  /** Setting a pin changes that bit of PIO1 and nothing else. */
  lemma PinWrite(pio: Regs, f: int, b: bool)
    requires Pin(f)
    ensures Place(f) == Some(Spot(1, PinBit(f), 1)) && Place(f + 1).None? && !Refused(f, Bit(b))
    ensures WriteField(pio, f, Bit(b)) == pio[1 := pio[1][PinBit(f) := b]]
  {
    SmallIffHighClear(Bit(b), 1);
    InsertBit(pio[1], PinBit(f), b);
  }

  // ---- the synthesiser ----

  /** Four pins of PIO1, starting with the chip enable. */
  datatype Pins = Pins(ce: int, data: int, clk: int, le: int)

  const RX_PINS := Pins(N61CE, N61DATA, N61CLK, N61LE)
  const TX_PINS := Pins(N62CE, N62DATA, N62CLK, N62LE)

  type Latches = s: seq<Word> | |s| == 8 witness seq(8, _ => ZERO)

  /** A synthesiser as far as its serial port goes, with every word it has latched so far, in order. */
  datatype Chip = Chip(shift: Word, latched: Latches, history: seq<Word>)

  /** What a chip makes of a change of PIO1. */
  function Observe(c: Chip, pins: Pins, before: Word, after: Word): Chip
    requires Pin(pins.data) && Pin(pins.clk) && Pin(pins.le)
  {
    var shift := if !before[PinBit(pins.clk)] && after[PinBit(pins.clk)]
                 then [after[PinBit(pins.data)]] + c.shift[..BITS - 1] else c.shift;
    if !before[PinBit(pins.le)] && after[PinBit(pins.le)]
    then Chip(shift, c.latched[Address(shift) := shift], c.history + [shift]) else c.(shift := shift)
  }

  /** With every rising clock the bit on the data line comes in at the bottom, so the first of 32 ends
      at the top; with a rising latch enable the word goes to the register it names. */
  lemma ObserveEdge(c: Chip, pins: Pins, before: Word, after: Word)
    requires Pin(pins.data) && Pin(pins.clk) && Pin(pins.le)
    ensures var c' := Observe(c, pins, before, after);
            var clock, latch := after[PinBit(pins.clk)] && !before[PinBit(pins.clk)],
                                after[PinBit(pins.le)] && !before[PinBit(pins.le)];
            && (clock ==> c'.shift[0] == after[PinBit(pins.data)] && c'.shift[1..] == c.shift[..31])
            && (!clock ==> c'.shift == c.shift)
            && (latch ==> c'.latched[Address(c'.shift)] == c'.shift)
            && (forall i :: 0 <= i < 8 && !(latch && i == Address(c'.shift)) ==> c'.latched[i] == c.latched[i])
  {
  }

  /** The register file with both synthesisers on its pins. */
  class Board {
    const file: RegisterFile
    var rx: Chip
    var tx: Chip

    constructor (file: RegisterFile, rx: Chip, tx: Chip)
      ensures this.file == file && this.rx == rx && this.tx == tx
    {
      this.file, this.rx, this.tx := file, rx, tx;
    }

    function PinWord(): Word
      reads file
    {
      file.pio[1]
    }

    /** One ioctl call on a pin, seen by both chips. */
    method SetPin(f: int, b: bool) returns (rc: int)
      requires Pin(f)
      modifies this, file
      ensures rc == 0 && file.pio == old(file.pio)[1 := old(PinWord())[PinBit(f) := b]]
      ensures rx == Observe(old(rx), RX_PINS, old(PinWord()), PinWord())
      ensures tx == Observe(old(tx), TX_PINS, old(PinWord()), PinWord())
    {
      var before := file.pio[1];
      PinWrite(file.pio, f, b);
      var out;
      rc, out := file.CdevIoctl(f + 1, Bit(b));
      rx, tx := Observe(rx, RX_PINS, before, file.pio[1]), Observe(tx, TX_PINS, before, file.pio[1]);
    }

    function PinsOf(channel: int): Pins {
      if channel == 1 then RX_PINS else TX_PINS
    }

    function Selected(channel: int): Chip
      reads this
    {
      if channel == 1 then rx else tx
    }

    function Other(channel: int): Chip
      reads this
    {
      if channel == 1 then tx else rx
    }

    /** A pin call that is no rising edge of the channel's clock or latch enable: neither chip
        notices it. */
    method SetQuiet(channel: int, f: int, b: bool) returns (rc: int)
      requires (channel == 1 || channel == 2) && f in PinNames(PinsOf(channel))
      requires b ==> f != PinsOf(channel).clk && f != PinsOf(channel).le
      modifies this, file
      ensures rc == 0 && file.pio == old(file.pio)[1 := old(PinWord())[PinBit(f) := b]]
      ensures rx == old(rx) && tx == old(tx)
    {
      rc := SetPin(f, b);
    }

    /** One bit of the serial word: lines 216-219. */
    method ShiftBit(channel: int, b: bool) returns (rc: int)
      requires channel == 1 || channel == 2
      modifies this, file
      ensures var c := old(Selected(channel)); rc == 0 && Selected(channel) == c.(shift := [b] + c.shift[..BITS - 1])
      ensures Other(channel) == old(Other(channel))
      ensures file.pio == old(file.pio)[1 := PinWord()] && SameButPins(PinsOf(channel), old(PinWord()), PinWord())
      ensures PinWord()[PinBit(PinsOf(channel).le)] == old(PinWord())[PinBit(PinsOf(channel).le)]
      ensures PinWord()[PinBit(PinsOf(channel).ce)] == old(PinWord())[PinBit(PinsOf(channel).ce)]
    {
      var pins := PinsOf(channel);
      rc := SetQuiet(channel, pins.clk, false);
      var r := SetQuiet(channel, pins.data, b);
      rc := if rc == 0 then r else rc;
      r := SetPin(pins.clk, true);
      rc := if rc == 0 then r else rc;
    }

    /** The end of a word: lines 221-224. */
    method Latch(channel: int) returns (rc: int)
      requires channel == 1 || channel == 2
      requires !PinWord()[PinBit(PinsOf(channel).le)]
      modifies this, file
      ensures var c := old(Selected(channel));
              && rc == 0
              && Selected(channel) == Chip(c.shift, c.latched[Address(c.shift) := c.shift], c.history + [c.shift])
      ensures Other(channel) == old(Other(channel))
      ensures file.pio == old(file.pio)[1 := PinWord()] && SameButPins(PinsOf(channel), old(PinWord()), PinWord())
      ensures PinWord()[PinBit(PinsOf(channel).ce)] == old(PinWord())[PinBit(PinsOf(channel).ce)]
      ensures var p := PinsOf(channel);
              !PinWord()[PinBit(p.data)] && !PinWord()[PinBit(p.clk)] && !PinWord()[PinBit(p.le)]
    {
      var pins := PinsOf(channel);
      rc := SetQuiet(channel, pins.clk, false);
      var r := SetQuiet(channel, pins.data, false);
      rc := if rc == 0 then r else rc;
      r := SetPin(pins.le, true);
      rc := if rc == 0 then r else rc;
      r := SetQuiet(channel, pins.le, false);
      rc := if rc == 0 then r else rc;
    }

    /** `WriteReg`, once the device file is open: for any earlier state of the pins, the
        selected chip latches exactly the word, at the address in its low three bits; every
        other latch, the other chip and every other bit of the register file are untouched,
        and the pins are left idle. */
    method WriteReg(channel: int, reg: Word) returns (rc: int)
      modifies this, file
      ensures channel == 1 || channel == 2 ==>
                && rc == 0
                && Selected(channel) == Chip(reg, old(Selected(channel)).latched[Address(reg) := reg],
                                             old(Selected(channel)).history + [reg])
                && Other(channel) == old(Other(channel))
                && file.pio == old(file.pio)[1 := PinWord()]
                && SameButPins(PinsOf(channel), old(PinWord()), PinWord())
                && Idle(PinsOf(channel), PinWord())
      ensures channel == 1 ==>
                tx == old(tx) && OnlyBits(old(PinWord()), PinWord(), 0, 4) && PinsOf(1) == Pins(200, 202, 204, 206)
      ensures channel == 2 ==>
                rx == old(rx) && OnlyBits(old(PinWord()), PinWord(), 4, 8) && PinsOf(2) == Pins(208, 210, 212, 214)
      ensures channel != 1 && channel != 2 ==> rc == 1 && rx == old(rx) && tx == old(tx) && file.pio == old(file.pio)
    {
      if channel != 1 && channel != 2 { return 1; }
      var pins := PinsOf(channel);
      rc := SetQuiet(channel, pins.le, false);
      var r := SetQuiet(channel, pins.ce, true);
      rc := if rc == 0 then r else rc;
      for i := 0 to BITS
        invariant rc == 0 && Selected(channel).latched == old(Selected(channel)).latched
        invariant Selected(channel).history == old(Selected(channel)).history
        invariant Other(channel) == old(Other(channel))
        invariant file.pio == old(file.pio)[1 := PinWord()] && SameButPins(pins, old(PinWord()), PinWord())
        invariant PinWord()[PinBit(pins.ce)] && !PinWord()[PinBit(pins.le)]
        invariant Selected(channel).shift[..i] == reg[BITS - i..]
      {
        ghost var before := Selected(channel).shift;
        r := ShiftBit(channel, reg[31 - i]);
        rc := if rc == 0 then r else rc;
        assert Selected(channel).shift[..i + 1] == [reg[31 - i]] + before[..i];
      }
      assert Selected(channel).shift == reg;
      r := Latch(channel);
      rc := if rc == 0 then r else rc;
    }
  }

  function PinNames(p: Pins): set<int> { {p.ce, p.data, p.clk, p.le} }

  /** Only the four pins of one chip differ. */
  predicate SameButPins(p: Pins, w: Word, w': Word)
    requires Pin(p.ce)
  {
    forall i :: 0 <= i < BITS && !(PinBit(p.ce) <= i < PinBit(p.ce) + 4) ==> w'[i] == w[i]
  }

  /** No bit outside these differs. */
  predicate OnlyBits(w: Word, w': Word, from: nat, to: nat) {
    forall i :: 0 <= i < BITS && !(from <= i < to) ==> w'[i] == w[i]
  }

  /** Chip enable high, everything else low. */
  predicate Idle(p: Pins, w: Word)
    requires Pin(p.ce) && Pin(p.data) && Pin(p.clk) && Pin(p.le)
  {
    w[PinBit(p.ce)] && !w[PinBit(p.data)] && !w[PinBit(p.clk)] && !w[PinBit(p.le)]
  }

  // ---- the converters' serial port ----

  /** A slave that samples its data line on rising clock edges while selected: `bits` are those
      of the present selection and `frames` those of finished ones. */
  datatype Slave = Slave(bits: seq<bool>, frames: seq<seq<bool>>)

  /** What the slave makes of a change of PIO1; it is selected while `cs` is low. */
  function Sample(s: Slave, cs: nat, clk: nat, sdo: nat, before: Word, after: Word): Slave
    requires cs < BITS && clk < BITS && sdo < BITS
  {
    if before[cs] && !after[cs] then Slave([], s.frames)
    else if !before[cs] && after[cs] then Slave([], s.frames + [s.bits])
    else if !after[cs] && !before[clk] && after[clk] then Slave(s.bits + [after[sdo]], s.frames)
    else s
  }

  /** The register file with one slave on three of its pins. */
  class SpiBus {
    const file: RegisterFile
    const cs: int
    const clk: int
    const sdo: int
    var slave: Slave

    predicate Wired() {
      Pin(cs) && Pin(clk) && Pin(sdo) && cs != clk && cs != sdo && clk != sdo
    }

    constructor (file: RegisterFile, cs: int, clk: int, sdo: int, slave: Slave)
      ensures this.file == file && this.cs == cs && this.clk == clk && this.sdo == sdo && this.slave == slave
    {
      this.file, this.cs, this.clk, this.sdo, this.slave := file, cs, clk, sdo, slave;
    }

    function PinWord(): Word
      reads file
    {
      file.pio[1]
    }

    method SetPin(f: int, b: bool) returns (rc: int)
      requires Wired() && Pin(f)
      modifies this, file
      ensures rc == 0 && file.pio == old(file.pio)[1 := old(PinWord())[PinBit(f) := b]]
      ensures slave == Sample(old(slave), PinBit(cs), PinBit(clk), PinBit(sdo), old(PinWord()), PinWord())
    {
      var before := file.pio[1];
      PinWrite(file.pio, f, b);
      var out;
      rc, out := file.CdevIoctl(f + 1, Bit(b));
      slave := Sample(slave, PinBit(cs), PinBit(clk), PinBit(sdo), before, file.pio[1]);
    }

    /** Everything but the slave's three pins is as in `was`. */
    predicate OnlyPinsChanged(was: Regs)
      requires Wired()
      reads this, file
    {
      && file.pio == was[1 := PinWord()]
      && forall i :: 0 <= i < BITS && i != PinBit(cs) && i != PinBit(clk) && i != PinBit(sdo) ==>
           PinWord()[i] == was[1][i]
    }

    /** One bit of the transfer: lines 29-32. */
    method SendBit(b: bool) returns (rc: int)
      requires Wired() && !PinWord()[PinBit(cs)] && !PinWord()[PinBit(clk)]
      modifies this, file
      ensures rc == 0 && OnlyPinsChanged(old(file.pio)) && !PinWord()[PinBit(cs)] && !PinWord()[PinBit(clk)]
      ensures slave == Slave(old(slave.bits) + [b], old(slave.frames))
    {
      rc := SetPin(sdo, b);
      var r := SetPin(clk, true);
      rc := if rc == 0 then r else rc;
      r := SetPin(clk, false);
      rc := if rc == 0 then r else rc;
    }

    /** `LangordSpiWrite`: whatever the pins did before, the slave sees one more selection with
        exactly `8 * numBytes` rising clock edges, at which it samples the low bits of `content`,
        most significant first; every other bit of the register file is untouched. */
    method Write(numBytes: nat, content: Word) returns (rc: int)
      requires Wired() && numBytes <= 4
      modifies this, file
      ensures rc == 0 && OnlyPinsChanged(old(file.pio))
      ensures |slave.frames| > 0 && slave.bits == []
      ensures var frame := slave.frames[|slave.frames| - 1];
              |frame| == 8 * numBytes && forall k :: 0 <= k < 8 * numBytes ==> frame[k] == content[8 * numBytes - 1 - k]
      ensures slave.frames[..|slave.frames| - 1] ==
                old(slave.frames) + (if old(PinWord())[PinBit(cs)] then [] else [old(slave.bits)])
      ensures PinWord()[PinBit(cs)] && !PinWord()[PinBit(clk)]
    {
      rc := SetPin(cs, true);
      var r := SetPin(clk, false);
      rc := if rc == 0 then r else rc;
      ghost var earlier := slave.frames;
      r := SetPin(cs, false);
      rc := if rc == 0 then r else rc;
      var i := numBytes * 8 - 1;
      while i >= 0
        invariant -1 <= i < 8 * numBytes || (numBytes == 0 && i == -1)
        invariant rc == 0 && OnlyPinsChanged(old(file.pio))
        invariant !PinWord()[PinBit(cs)] && !PinWord()[PinBit(clk)]
        invariant slave.frames == earlier && |slave.bits| == 8 * numBytes - 1 - i
        invariant forall k :: 0 <= k < |slave.bits| ==> slave.bits[k] == content[8 * numBytes - 1 - k]
        decreases i
      {
        r := SendBit(content[i]);
        rc := if rc == 0 then r else rc;
        i := i - 1;
      }
      ghost var bits := slave.bits;
      r := SetPin(cs, true);
      rc := if rc == 0 then r else rc;
      assert slave.frames == earlier + [bits];
    }
  }
}
