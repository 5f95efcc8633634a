/** 32-bit machine words as their bits, least significant first, with the C operators the
    register code uses. */
module Words {

  const BITS: nat := 32

  type Word = w: seq<bool> | |w| == BITS witness seq(BITS, _ => false)

  const ZERO: Word := seq(BITS, _ => false)

  function And(a: Word, b: Word): Word { seq(BITS, i requires 0 <= i < BITS => a[i] && b[i]) }

  function Or(a: Word, b: Word): Word { seq(BITS, i requires 0 <= i < BITS => a[i] || b[i]) }

  function Not(a: Word): Word { seq(BITS, i requires 0 <= i < BITS => !a[i]) }

  function Shl(a: Word, n: nat): Word { seq(BITS, i requires 0 <= i < BITS => i >= n && a[i - n]) }

  function Shr(a: Word, n: nat): Word { seq(BITS, i requires 0 <= i < BITS => i + n < BITS && a[i + n]) }

  /** The low `width` bits set: 0x1, 0xf, 0x1f, 0xff, 0xffffffff and the like. */
  function Mask(width: nat): Word { seq(BITS, i requires 0 <= i < BITS => i < width) }

  function Bit(b: bool): Word { seq(BITS, i requires 0 <= i < BITS => i == 0 && b) }

  /** No bit at or above `width`. */
  predicate Fits(a: Word, width: nat) {
    forall i :: width <= i < BITS ==> !a[i]
  }

  /** `(word >> off) & mask`. */
  function Extract(word: Word, off: nat, width: nat): (r: Word)
    ensures Fits(r, width)
  {
    And(Shr(word, off), Mask(width))
  }

  /** `(word & ~(mask << off)) | (v << off)`. */
  function Insert(word: Word, off: nat, width: nat, v: Word): Word {
    Or(And(word, Not(Shl(Mask(width), off))), Shl(v, off))
  }

  /** The register address in the low three bits. */
  function Address(w: Word): (r: nat)
    ensures r < 8
  {
    (if w[0] then 1 else 0) + (if w[1] then 2 else 0) + (if w[2] then 4 else 0)
  }

  lemma ExtractInserted(word: Word, off: nat, width: nat, v: Word)
    requires off + width <= BITS && Fits(v, width)
    ensures Extract(Insert(word, off, width, v), off, width) == v
  {
  }

  lemma ExtractOther(word: Word, off: nat, width: nat, v: Word, off': nat, width': nat)
    requires Fits(v, width) && (off + width <= off' || off' + width' <= off)
    ensures Extract(Insert(word, off, width, v), off', width') == Extract(word, off', width')
  {
  }

  lemma InsertBit(word: Word, off: nat, b: bool)
    requires off < BITS
    ensures Insert(word, off, 1, Bit(b)) == word[off := b]
  {
  }

  // ---- numbers ----

  function Pow2(n: nat): (r: nat)
    ensures r > 0
  {
    if n == 0 then 1 else 2 * Pow2(n - 1)
  }

  /** The number whose binary digits, least significant first, are `a`. */
  function Number(a: seq<bool>): (r: nat)
    ensures r < Pow2(|a|)
  {
    if a == [] then 0 else (if a[0] then 1 else 0) + 2 * Number(a[1..])
  }

  function Digits(n: nat, len: nat): (r: seq<bool>)
    ensures |r| == len
  {
    if len == 0 then [] else [n % 2 == 1] + Digits(n / 2, len - 1)
  }

  lemma {:induction false} DigitsNumber(a: seq<bool>)
    ensures Digits(Number(a), |a|) == a
  {
    if a != [] {
      DigitsNumber(a[1..]);
      assert a == [a[0]] + a[1..];
    }
  }

  lemma {:induction false} NumberDigits(n: nat, len: nat)
    requires n < Pow2(len)
    ensures Number(Digits(n, len)) == n
  {
    if len != 0 {
      NumberDigits(n / 2, len - 1);
      assert Digits(n, len)[1..] == Digits(n / 2, len - 1);
    }
  }

  /** A number is below a power of two exactly when its digits from there on are clear. */
  lemma {:induction false} SmallIffHighClear(a: seq<bool>, width: nat)
    ensures Number(a) < Pow2(width) <==> forall i :: width <= i < |a| ==> !a[i]
  {
    if a == [] {
    } else if width == 0 {
      SmallIffHighClear(a[1..], 0);
      assert forall i :: 0 < i < |a| ==> a[i] == a[1..][i - 1];
    } else {
      SmallIffHighClear(a[1..], width - 1);
      assert forall i :: 0 < i < |a| ==> a[i] == a[1..][i - 1];
    }
  }

  /** The number whose lowest `width` digits are ones and the others zeros. */
  lemma {:induction false} Ones(a: seq<bool>, width: nat)
    requires forall i :: 0 <= i < |a| ==> a[i] == (i < width)
    ensures Number(a) == Pow2(if width < |a| then width else |a|) - 1
  {
    if a != [] {
      forall i | 0 <= i < |a[1..]| ensures a[1..][i] == (i < (if width == 0 then 0 else width - 1)) {
        assert a[1..][i] == a[i + 1];
      }
      Ones(a[1..], if width == 0 then 0 else width - 1);
    }
  }

  /** A word read as a two's complement int. */
  function Signed(a: Word): int {
    if a[BITS - 1] then Number(a) - Pow2(BITS) else Number(a)
  }

  function FromNumber(n: nat): Word { Digits(n, BITS) }

  lemma LowDigits(n: nat, len: nat)
    requires len >= 3
    ensures Digits(n, len)[0] == (n % 2 == 1)
    ensures Digits(n, len)[1] == (n / 2 % 2 == 1)
    ensures Digits(n, len)[2] == (n / 4 % 2 == 1)
  {
    assert Digits(n, len)[1] == Digits(n / 2, len - 1)[0];
    assert Digits(n, len)[2] == Digits(n / 2, len - 1)[1] == Digits(n / 2 / 2, len - 2)[0];
  }

  lemma ThreeBits(n: nat)
    requires n < 8
    ensures n == n % 2 + 2 * (n / 2 % 2) + 4 * (n / 4 % 2)
  {
  }

  /** A word that starts with the binary digits of `n` has address `n`. */
  lemma LowBitsAddress(n: nat, w: Word)
    requires n < 8 && forall i :: 0 <= i < 3 ==> w[i] == FromNumber(n)[i]
    ensures Address(w) == n
  {
    LowDigits(n, BITS);
    ThreeBits(n);
  }

  /** `n` survives being stored in a 32-bit word. */
  lemma Stored(n: nat)
    requires n < 0x1_0000_0000
    ensures Number(FromNumber(n)) == n
  {
    WordSize();
    NumberDigits(n, BITS);
  }

  lemma SmallPowers()
    ensures Pow2(0) == 1 && Pow2(1) == 2 && Pow2(2) == 4 && Pow2(3) == 8
    ensures Pow2(4) == 16 && Pow2(5) == 32 && Pow2(6) == 64
  {
    assert Pow2(2) == 4;
    assert Pow2(4) == 16;
  }

  lemma {:induction false} PowersGrow(m: nat, n: nat)
    requires m <= n
    ensures Pow2(m) <= Pow2(n)
    decreases n
  {
    if m < n { PowersGrow(m, n - 1); }
  }

  lemma PowerDoubles(n: nat)
    ensures Pow2(n + n) == Pow2(n) * Pow2(n)
  {
    PowerSum(n, n);
  }

  lemma {:induction false} PowerSum(m: nat, n: nat)
    ensures Pow2(m + n) == Pow2(m) * Pow2(n)
  {
    if m != 0 {
      PowerSum(m - 1, n);
      assert Pow2(m + n) == 2 * Pow2(m - 1 + n);
    }
  }

  lemma ByteSize()
    ensures Pow2(8) == 0x100 && Pow2(4) == 16 && Pow2(3) == 8 && Pow2(2) == 4 && Pow2(1) == 2
  {
    assert Pow2(2) == 4;
    PowerDoubles(2);
    PowerDoubles(4);
  }

  lemma WordSize()
    ensures Pow2(BITS) == 0x1_0000_0000 && Pow2(16) == 0x10000
  {
    ByteSize();
    PowerDoubles(8);
    PowerDoubles(16);
  }

  lemma TenBits()
    ensures Pow2(10) == 1024 && Pow2(12) == 4096
  {
    ByteSize();
    PowerSum(8, 2);
    PowerSum(8, 4);
  }

  lemma FromNumberFits(n: nat, width: nat)
    requires width <= 16 && n < Pow2(width)
    ensures Fits(FromNumber(n), width) && Number(FromNumber(n)) == n
  {
    WordSize();
    PowerSum(width, BITS - width);
    assert Pow2(width) <= Pow2(BITS) by { assert Pow2(BITS - width) >= 1; }
    NumberDigits(n, BITS);
    SmallIffHighClear(FromNumber(n), width);
  }
}
