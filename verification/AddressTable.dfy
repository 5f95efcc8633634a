/** The address translation table between the FPGA's DMA addresses and the PCI bus: its mask is
    detected at probe (sw/langford_driver/langford.c:1166-1171), its 64 entries are written at
    open (lines 895-909) and every descriptor address goes through it (lines 146 and 404). */
module AddressTable {
  import opened Words

  const DMAPAGEWIDTH: nat := 20
  const PAGE: nat := 0x10_0000
  const DMARXBUFFS: nat := 32
  const SLOTS: nat := 64
  const CRA_ATT: nat := 0x1000

  /** The bits of a table entry above a page offset of `width` bits. */
  function BitsAbove(width: nat): Word
    requires width <= BITS
  {
    Not(Mask(width))
  }

  /** The bits the descriptors leave to the table. */
  function PageBits(): Word { BitsAbove(DMAPAGEWIDTH) }

  type Buffers = b: seq<Word> | |b| == 32 witness seq(32, _ => ZERO)

  /** The bridge's table: 64 pairs of 32-bit words from `CRA_ATT` on. Its page size is fixed when the
      FPGA is built; an entry keeps only the bits above it. */
  class Bridge {
    const width: nat
    var low: seq<Word>
    var high: seq<Word>

    predicate Valid()
      reads this
    {
      |low| == SLOTS && |high| == SLOTS && 2 <= width <= BITS
    }

    constructor (width: nat, low: seq<Word>, high: seq<Word>)
      requires |low| == SLOTS && |high| == SLOTS && 2 <= width <= BITS
      ensures Valid() && this.width == width && this.low == low && this.high == high
    {
      this.width, this.low, this.high := width, low, high;
    }

    /** `writel` to the table. */
    method Write(value: Word, offset: nat)
      requires Valid() && 0x1000 <= offset < 0x1200 && offset % 4 == 0
      modifies this
      ensures Valid()
      ensures var i := (offset - 0x1000) / 8;
              if offset % 8 == 0 then low == old(low)[i := And(value, BitsAbove(width))] && high == old(high)
              else low == old(low) && high == old(high)[i := value]
    {
      var i := (offset - 0x1000) / 8;
      if offset % 8 == 0 {
        low := low[i := And(value, BitsAbove(width))];
      } else {
        high := high[i := value];
      }
    }

    /** For whatever page size, writing ones to the first entry finds the mask of the bits kept. */
    method DetectMask() returns (mask: Word)
      requires Valid()
      modifies this
      ensures Valid() && mask == BitsAbove(width) && low == old(low)[0 := mask] && high == old(high)
    {
      Write(Not(Mask(2)), CRA_ATT);
      mask := low[0];
      assert And(Not(Mask(2)), BitsAbove(width)) == BitsAbove(width);
    }

    /** The two writes of one entry. */
    method WriteEntry(address: Word, entry: nat, mask: Word)
      requires Valid() && mask == BitsAbove(width) && entry < SLOTS
      modifies this
      ensures Valid() && low == old(low)[entry := And(address, mask)] && high == old(high)[entry := Mask(0)]
    {
      MaskTwice(address, mask);
      EntryOffset(entry);
      Write(And(address, mask), CRA_ATT + entry * 8);
      Write(Mask(0), CRA_ATT + 4 + entry * 8);
    }

    /** One of the loops of lines 897-908, from entry `first` on. */
    method WriteEntries(buffs: Buffers, first: nat, mask: Word)
      requires Valid() && mask == BitsAbove(width) && first + 32 <= SLOTS
      modifies this
      ensures Valid()
      ensures forall j :: 0 <= j < SLOTS ==>
                low[j] == (if first <= j < first + 32 then And(buffs[j - first], mask) else old(low)[j])
      ensures forall j :: 0 <= j < SLOTS ==> high[j] == (if first <= j < first + 32 then Mask(0) else old(high)[j])
    {
      for i := 0 to 32
        invariant Valid()
        invariant forall j :: 0 <= j < SLOTS ==>
                    low[j] == (if first <= j < first + i then And(buffs[j - first], mask) else old(low)[j])
        invariant forall j :: 0 <= j < SLOTS ==> high[j] == (if first <= j < first + i then Mask(0) else old(high)[j])
      {
        WriteEntry(buffs[i], i + first, mask);
      }
    }

    /** Lines 897-908, with the mask detected: whatever the table held, entry `i` ends with the page
        of receive buffer `i`, entry `32 + i` with that of transmit buffer `i`, and no bit above
        32. With the page size the descriptors are made for, both threads' descriptors then reach
        their own buffers (lines 146 and 404). */
    method WriteTable(rx: Buffers, tx: Buffers, mask: Word)
      requires Valid() && mask == BitsAbove(width)
      modifies this
      ensures Valid() && forall i :: 0 <= i < SLOTS ==> high[i] == Mask(0)
      ensures forall i :: 0 <= i < 32 ==> low[i] == And(rx[i], mask) && low[32 + i] == And(tx[i], mask)
      ensures width == DMAPAGEWIDTH ==> Holds(low, rx, tx)
      ensures width == 20 ==> forall i :: 0 <= i < 32 ==>
                && ReachesPage(low, Number(Or(Shl(FromNumber(i), 20), And(rx[i], Not(mask)))), Number(rx[i]))
                && ReachesPage(low, Number(Or(Shl(FromNumber(i + 32), 20), And(tx[i], Not(mask)))), Number(tx[i]))
    {
      WriteEntries(rx, 0, mask);
      WriteEntries(tx, DMARXBUFFS, mask);
      if width == DMAPAGEWIDTH { BothReach(low, rx, tx, mask); }
    }
  }

  lemma EntryOffset(i: nat)
    ensures i * 8 / 8 == i && i * 8 % 8 == 0 && (4 + i * 8) / 8 == i && (4 + i * 8) % 8 == 4
  {
  }

  function PageOf(address: Word): Word { And(address, PageBits()) }

  lemma MaskTwice(address: Word, mask: Word)
    ensures And(And(address, mask), mask) == And(address, mask)
  {
  }

  /** The bus address of a buffer by its slot: receive buffers first. */
  function BufferAt(rx: Buffers, tx: Buffers, slot: nat): Word
    requires slot < SLOTS
  {
    if slot < DMARXBUFFS then rx[slot] else tx[slot - DMARXBUFFS]
  }

  predicate Holds(low: seq<Word>, rx: Buffers, tx: Buffers)
    requires |low| == SLOTS
  {
    forall slot :: 0 <= slot < SLOTS ==> low[slot] == PageOf(BufferAt(rx, tx, slot))
  }

  /** The descriptor address of a buffer, as both threads compute it. */
  function Descriptor(slot: nat, address: Word): Word {
    Or(Shl(FromNumber(slot), DMAPAGEWIDTH), And(address, Not(PageBits())))
  }

  /** What the bridge makes of a DMA address: the page comes from the table, the rest passes. */
  function Translate(low: seq<Word>, at: nat): nat
    requires at < |low| * PAGE
  {
    Number(low[at / PAGE]) + at % PAGE
  }

  // ---- words as pages and offsets ----

  /** `n` moved up by `k` binary digits. */
  function Shifted(k: nat, n: nat): nat { Pow2(k) * n }

  lemma ShiftedTwice(k: nat, n: nat)
    requires k > 0
    ensures Shifted(k, n) == 2 * Shifted(k - 1, n)
  {
  }

  lemma {:induction false} SplitNumber(a: seq<bool>, k: nat)
    requires k <= |a|
    ensures Number(a) == Number(a[..k]) + Shifted(k, Number(a[k..]))
  {
    if k > 0 {
      SplitNumber(a[1..], k - 1);
      assert a[..k][1..] == a[1..][..k - 1] && a[1..][k - 1..] == a[k..];
      ShiftedTwice(k, Number(a[k..]));
    } else {
      assert a[0..] == a;
    }
  }

  lemma {:induction false} NumberClear(a: seq<bool>)
    requires forall i :: 0 <= i < |a| ==> !a[i]
    ensures Number(a) == 0
  {
    if a != [] { NumberClear(a[1..]); }
  }

  lemma PageSize()
    ensures Pow2(DMAPAGEWIDTH) == PAGE
  {
    WordSize();
    ByteSize();
    PowerSum(16, 4);
  }

  /** The number of a word by its page and its offset in the page. */
  lemma PageAndOffset(w: Word)
    ensures Number(w) == Number(w[..DMAPAGEWIDTH]) + PAGE * Number(w[DMAPAGEWIDTH..])
    ensures Number(w) % PAGE == Number(w[..DMAPAGEWIDTH]) && Number(w) / PAGE == Number(w[DMAPAGEWIDTH..])
  {
    PageSize();
    SplitNumber(w, DMAPAGEWIDTH);
    DivideExactly(Number(w[..DMAPAGEWIDTH]), Number(w[DMAPAGEWIDTH..]));
  }

  lemma DivideExactly(offset: nat, page: nat)
    requires offset < PAGE
    ensures (offset + PAGE * page) % PAGE == offset && (offset + PAGE * page) / PAGE == page
  {
  }

  lemma PageNumber(address: Word)
    ensures Number(PageOf(address)) == Number(address) / PAGE * PAGE == Number(address) - Number(address) % PAGE
  {
    var page := PageOf(address);
    PageAndOffset(address);
    PageAndOffset(page);
    NumberClear(page[..DMAPAGEWIDTH]);
    assert page[DMAPAGEWIDTH..] == address[DMAPAGEWIDTH..];
  }

  lemma {:induction false} DigitsPrefix(n: nat, len: nat, m: nat)
    requires m <= len
    ensures Digits(n, len)[..m] == Digits(n, m)
  {
    if m > 0 {
      DigitsPrefix(n / 2, len - 1, m - 1);
      assert Digits(n, len)[..m] == [n % 2 == 1] + Digits(n / 2, len - 1)[..m - 1];
    }
  }

  lemma SlotDigits(slot: nat)
    requires slot < SLOTS
    ensures Number(FromNumber(slot)[..12]) == slot
  {
    TenBits();
    DigitsPrefix(slot, BITS, 12);
    NumberDigits(slot, 12);
  }

  lemma DescriptorNumber(slot: nat, address: Word)
    requires slot < SLOTS
    ensures Number(Descriptor(slot, address)) == slot * PAGE + Number(address) % PAGE
  {
    var d := Descriptor(slot, address);
    PageAndOffset(address);
    PageAndOffset(d);
    DescriptorHalves(slot, address);
    SlotDigits(slot);
  }

  lemma DescriptorHalves(slot: nat, address: Word)
    ensures Descriptor(slot, address)[..DMAPAGEWIDTH] == address[..DMAPAGEWIDTH]
    ensures Descriptor(slot, address)[DMAPAGEWIDTH..] == FromNumber(slot)[..12]
  {
  }

  // ---- translation ----

  /** Byte `offset` of a transfer from DMA address `d` is byte `offset` from bus address `a`. */
  predicate Reaches(low: seq<Word>, d: nat, a: nat, offset: nat)
    requires |low| == SLOTS
  {
    d + offset < SLOTS * PAGE && Translate(low, d + offset) == a + offset
  }

  /** All bytes up to the end of the bus address's page are reached. */
  predicate ReachesPage(low: seq<Word>, d: nat, a: nat)
    requires |low| == SLOTS
  {
    forall offset: nat :: offset < PAGE && a % PAGE + offset < PAGE ==> Reaches(low, d, a, offset)
  }

  /** The bytes beyond it are reached if and only if `n` lies in the following page. */
  predicate ReachesBeyondIff(low: seq<Word>, d: nat, a: nat, n: nat)
    requires |low| == SLOTS
  {
    forall offset: nat :: offset < 2 * PAGE && PAGE <= a % PAGE + offset < 2 * PAGE ==>
      (Reaches(low, d, a, offset) <==> n / PAGE == a / PAGE + 1)
  }

  lemma InsidePage(low: seq<Word>, slot: nat, d: nat, a: nat)
    requires |low| == SLOTS && slot < SLOTS && d == slot * PAGE + a % PAGE && Number(low[slot]) == a / PAGE * PAGE
    ensures ReachesPage(low, d, a)
  {
    forall offset: nat | offset < PAGE && a % PAGE + offset < PAGE ensures Reaches(low, d, a, offset) {
      DivideExactly(a % PAGE + offset, slot);
    }
  }

  lemma BeyondPage(low: seq<Word>, slot: nat, d: nat, a: nat, n: nat)
    requires |low| == SLOTS && slot + 1 < SLOTS && d == slot * PAGE + a % PAGE
    requires Number(low[slot + 1]) == n / PAGE * PAGE
    ensures ReachesBeyondIff(low, d, a, n)
  {
    assert a == a / PAGE * PAGE + a % PAGE;
    forall offset: nat | offset < 2 * PAGE && PAGE <= a % PAGE + offset < 2 * PAGE
      ensures Reaches(low, d, a, offset) <==> n / PAGE == a / PAGE + 1
    {
      DivideExactly(a % PAGE + offset - PAGE, slot + 1);
    }
  }

  /** In whichever of the 64 slots a buffer is, its descriptor reaches each of its bytes that
      lies in the page it starts in, so all of a buffer that does not cross a page. */
  lemma DescriptorReachesBuffer(low: seq<Word>, rx: Buffers, tx: Buffers, slot: nat)
    requires |low| == SLOTS && Holds(low, rx, tx) && slot < SLOTS
    ensures ReachesPage(low, Number(Descriptor(slot, BufferAt(rx, tx, slot))), Number(BufferAt(rx, tx, slot)))
  {
    var address := BufferAt(rx, tx, slot);
    DescriptorNumber(slot, address);
    PageNumber(address);
    InsidePage(low, slot, Number(Descriptor(slot, address)), Number(address));
  }

  /** The receive descriptor of a buffer reaches it through the lower half of the table. */
  lemma ReceiveReaches(low: seq<Word>, rx: Buffers, mask: Word, i: nat)
    requires |low| == SLOTS && mask == PageBits() && i < 32 && low[i] == And(rx[i], mask)
    ensures ReachesPage(low, Number(Or(Shl(FromNumber(i), 20), And(rx[i], Not(mask)))), Number(rx[i]))
  {
    DescriptorNumber(i, rx[i]);
    PageNumber(rx[i]);
    InsidePage(low, i, Number(Descriptor(i, rx[i])), Number(rx[i]));
  }

  /** The transmit descriptor of a buffer reaches it through the upper half. */
  lemma TransmitReaches(low: seq<Word>, tx: Buffers, mask: Word, i: nat)
    requires |low| == SLOTS && mask == PageBits() && i < 32 && low[32 + i] == And(tx[i], mask)
    ensures ReachesPage(low, Number(Or(Shl(FromNumber(i + 32), 20), And(tx[i], Not(mask)))), Number(tx[i]))
  {
    DescriptorNumber(i + 32, tx[i]);
    PageNumber(tx[i]);
    InsidePage(low, i + 32, Number(Descriptor(i + 32, tx[i])), Number(tx[i]));
  }

  lemma BothReach(low: seq<Word>, rx: Buffers, tx: Buffers, mask: Word)
    requires |low| == SLOTS && mask == PageBits()
    requires forall i :: 0 <= i < 32 ==> low[i] == And(rx[i], mask) && low[32 + i] == And(tx[i], mask)
    ensures forall i :: 0 <= i < 32 ==>
              && ReachesPage(low, Number(Or(Shl(FromNumber(i), 20), And(rx[i], Not(mask)))), Number(rx[i]))
              && ReachesPage(low, Number(Or(Shl(FromNumber(i + 32), 20), And(tx[i], Not(mask)))), Number(tx[i]))
    ensures Holds(low, rx, tx)
  {
    forall i | 0 <= i < 32
      ensures ReachesPage(low, Number(Or(Shl(FromNumber(i), 20), And(rx[i], Not(mask)))), Number(rx[i]))
      ensures ReachesPage(low, Number(Or(Shl(FromNumber(i + 32), 20), And(tx[i], Not(mask)))), Number(tx[i]))
    {
      ReceiveReaches(low, rx, mask, i);
      TransmitReaches(low, tx, mask, i);
    }
    forall slot | 0 <= slot < SLOTS ensures low[slot] == PageOf(BufferAt(rx, tx, slot)) {
      if slot >= 32 { assert low[32 + (slot - 32)] == And(tx[slot - 32], mask); }
    }
  }

  /** A byte beyond that page is reached if and only if the next slot's buffer happens to lie in
      the following page. */
  lemma CrossingReachesIff(low: seq<Word>, rx: Buffers, tx: Buffers, slot: nat)
    requires |low| == SLOTS && Holds(low, rx, tx) && slot + 1 < SLOTS
    ensures ReachesBeyondIff(low, Number(Descriptor(slot, BufferAt(rx, tx, slot))), Number(BufferAt(rx, tx, slot)),
                             Number(BufferAt(rx, tx, slot + 1)))
  {
    var address, next := BufferAt(rx, tx, slot), BufferAt(rx, tx, slot + 1);
    DescriptorNumber(slot, address);
    PageNumber(next);
    BeyondPage(low, slot, Number(Descriptor(slot, address)), Number(address), Number(next));
  }

  /** Different buffers never use the same entry, and no two bytes the same DMA address. */
  lemma DescriptorsApart(slot: nat, slot': nat, address: Word, address': Word, offset: nat, offset': nat)
    requires slot < SLOTS && slot' < SLOTS
    requires Number(address) % PAGE + offset < PAGE && Number(address') % PAGE + offset' < PAGE
    requires Number(Descriptor(slot, address)) + offset == Number(Descriptor(slot', address')) + offset'
    ensures slot == slot' && Number(address) % PAGE + offset == Number(address') % PAGE + offset'
  {
    DescriptorNumber(slot, address);
    DescriptorNumber(slot', address');
  }
}
