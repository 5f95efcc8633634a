/** The circular byte buffers shared by the user calls and the kernel threads
    (sw/langford_driver/langford.c): index arithmetic, the bytes a ring holds, and the
    copies made into and out of it. */
module Ring {

  newtype Byte = x: int | 0 <= x < 256

  /** Number of occupied elements between two ring indices. */
  function Filled(start: int, end: int, len: int): int {
    var rc := end - start;
    if rc < 0 then len + rc else rc
  }

  /** Number of elements that may still be added; one element is always left free. */
  function Avail(start: int, end: int, len: int): int {
    len - Filled(start, end, len) - 1
  }

  /** Position reached after stepping at most once round the ring. */
  function Wrap(i: nat, cap: nat): (r: nat)
    requires i < 2 * cap
    ensures r < cap && r == i % cap
  {
    if i < cap then SmallMod(i, cap); i else LargeMod(i, cap); i - cap
  }

  lemma SmallMod(i: nat, cap: nat)
    requires i < cap
    ensures i % cap == i
  {
  }

  lemma LargeMod(i: nat, cap: nat)
    requires cap <= i < 2 * cap
    ensures i % cap == i - cap
  {
  }

  /** What the two counters mean: `Filled` is the one distance below `cap` that leads from
      `start` to `end`, and together with `Avail` it always leaves exactly one element free. */
  lemma FilledMeaning(start: nat, end: nat, cap: nat, n: nat)
    requires start < cap && end < cap && n < cap
    ensures 0 <= Filled(start, end, cap) < cap
    ensures Filled(start, end, cap) + Avail(start, end, cap) == cap - 1
    ensures (start + n) % cap == end <==> n == Filled(start, end, cap)
  {
    assert Wrap(start + n, cap) == (start + n) % cap;
  }

  /** What `n` more bytes make of a fill count, the oldest ones being overrun. */
  function Advance(filled: int, n: nat, cap: nat): int {
    if filled + n < cap then filled + n else filled + n - cap
  }

  /** Moving the end on does that. */
  lemma FillAdvances(start: nat, end: nat, cap: nat, n: nat)
    requires start < cap && end < cap && n < cap
    ensures Filled(start, Wrap(end + n, cap), cap) == Advance(Filled(start, end, cap), n, cap)
  {
  }

  /** The bytes a ring holds, oldest first. */
  function Live(buf: seq<Byte>, start: nat, end: nat): (r: seq<Byte>)
    requires start < |buf| && end < |buf|
    ensures |r| == Filled(start, end, |buf|)
  {
    seq(Filled(start, end, |buf|), i requires 0 <= i < Filled(start, end, |buf|) => buf[Wrap(start + i, |buf|)])
  }

  /** A copy into the ring that has reached `k` bytes of `data`, starting at index `at`. */
  predicate Placed(buf: seq<Byte>, at: nat, data: seq<Byte>, k: nat)
    requires at < |buf| && k <= |data| <= |buf|
  {
    forall j :: 0 <= j < k ==> buf[Wrap(at + j, |buf|)] == data[j]
  }

  /** A byte stored in the free part of the ring leaves the held bytes alone and carries a
      copy one byte further. */
  lemma PlaceNext(buf: seq<Byte>, start: nat, end: nat, data: seq<Byte>, k: nat)
    requires start < |buf| && end < |buf|
    requires k < |data| <= Avail(start, end, |buf|) && Placed(buf, end, data, k)
    ensures var buf' := buf[Wrap(end + k, |buf|) := data[k]];
            Live(buf', start, end) == Live(buf, start, end) && Placed(buf', end, data, k + 1)
  {
    var buf' := buf[Wrap(end + k, |buf|) := data[k]];
    forall i | 0 <= i < Filled(start, end, |buf|)
      ensures Live(buf', start, end)[i] == Live(buf, start, end)[i]
    {
      assert Wrap(start + i, |buf|) != Wrap(end + k, |buf|);
    }
    forall j | 0 <= j < k + 1 ensures buf'[Wrap(end + j, |buf|)] == data[j] {
      assert j < k ==> Wrap(end + j, |buf|) != Wrap(end + k, |buf|);
    }
  }

  /** Publishing the end index after a copy that fits appends exactly the copied bytes. */
  lemma PublishEnd(buf: seq<Byte>, start: nat, end: nat, data: seq<Byte>)
    requires start < |buf| && end < |buf| && |data| <= Avail(start, end, |buf|)
    requires Placed(buf, end, data, |data|)
    ensures Live(buf, start, Wrap(end + |data|, |buf|)) == Live(buf, start, end) + data
  {
    var before := Live(buf, start, end);
    var after := Live(buf, start, Wrap(end + |data|, |buf|));
    assert |after| == |before| + |data|;
    forall i | 0 <= i < |after| ensures after[i] == (before + data)[i] {
      if |before| <= i {
        assert Wrap(start + i, |buf|) == Wrap(end + (i - |before|), |buf|);
      }
    }
  }

  /** Held and free positions never coincide. */
  lemma RegionsApart(start: nat, end: nat, cap: nat, i: nat, j: nat)
    requires start < cap && end < cap && i <= Avail(start, end, cap) && j < Filled(start, end, cap)
    ensures Wrap(end + i, cap) != Wrap(start + j, cap)
  {
  }

  /** Publishing the start index removes exactly the oldest bytes. */
  lemma PublishStart(buf: seq<Byte>, start: nat, end: nat, n: nat)
    requires start < |buf| && end < |buf| && n <= Filled(start, end, |buf|)
    ensures Live(buf, Wrap(start + n, |buf|), end) == Live(buf, start, end)[n..]
  {
    var after := Live(buf, Wrap(start + n, |buf|), end);
    assert |after| == Filled(start, end, |buf|) - n;
    forall i | 0 <= i < |after| ensures after[i] == Live(buf, start, end)[n + i] {
      assert Wrap(Wrap(start + n, |buf|) + i, |buf|) == Wrap(start + (n + i), |buf|);
    }
  }

  /** Concatenation of blocks. */
  function Flatten(blocks: seq<seq<Byte>>): seq<Byte> {
    if blocks == [] then [] else Flatten(blocks[..|blocks| - 1]) + blocks[|blocks| - 1]
  }

  /** Blocks of equal length flatten to a multiple of it. */
  lemma {:induction false} FlattenLength(blocks: seq<seq<Byte>>, blk: nat)
    requires forall i :: 0 <= i < |blocks| ==> |blocks[i]| == blk
    ensures |Flatten(blocks)| == |blocks| * blk
    decreases |blocks|
  {
    if blocks != [] { FlattenLength(blocks[..|blocks| - 1], blk); }
  }

  lemma FlattenSnoc(blocks: seq<seq<Byte>>, b: seq<Byte>)
    ensures Flatten(blocks + [b]) == Flatten(blocks) + b
  {
    assert (blocks + [b])[..|blocks|] == blocks;
  }

  lemma {:induction false} FlattenPrefix(blocks: seq<seq<Byte>>, n: nat)
    requires n <= |blocks|
    ensures Flatten(blocks[..n]) <= Flatten(blocks)
    decreases |blocks|
  {
    if n == |blocks| {
      assert blocks[..n] == blocks;
    } else {
      FlattenPrefix(blocks[..|blocks| - 1], n);
      assert blocks[..|blocks| - 1][..n] == blocks[..n];
    }
  }

  lemma {:induction false} FlattenSplit(blocks: seq<seq<Byte>>, n: nat)
    requires n <= |blocks|
    ensures Flatten(blocks) == Flatten(blocks[..n]) + Flatten(blocks[n..])
    decreases |blocks|
  {
    if n == |blocks| {
      assert blocks[..n] == blocks;
    } else {
      var front := blocks[..|blocks| - 1];
      FlattenSplit(front, n);
      assert front[..n] == blocks[..n];
      assert blocks[n..][..|blocks| - n - 1] == front[n..];
    }
  }

  lemma PrefixWithin(a: seq<Byte>, g: seq<Byte>, b: seq<Byte>, c: seq<Byte>)
    requires g <= b && a + b <= c
    ensures a + g <= c
  {
    assert g == b[..|g|];
    assert a + b == c[..|a + b|];
    forall i | 0 <= i < |a + g| ensures (a + g)[i] == c[i] {
      assert (a + b)[i] == c[i];
    }
  }

  lemma FlattenTake(blocks: seq<seq<Byte>>, n: nat)
    requires n < |blocks|
    ensures Flatten(blocks[..n]) + blocks[n] == Flatten(blocks[..n + 1])
  {
    assert blocks[..n + 1] == blocks[..n] + [blocks[n]];
    FlattenSnoc(blocks[..n], blocks[n]);
  }

  /** Some whole blocks and a beginning of the next one are a prefix of all the blocks. */
  lemma FlattenPart(blocks: seq<seq<Byte>>, n: nat, got: seq<Byte>)
    requires n < |blocks| && got <= blocks[n]
    ensures Flatten(blocks[..n]) + got <= Flatten(blocks)
  {
    FlattenPrefix(blocks, n + 1);
    FlattenTake(blocks, n);
    PrefixWithin(Flatten(blocks[..n]), got, blocks[n], Flatten(blocks));
  }

  lemma MovePrefix(a: seq<Byte>, g: seq<Byte>, b: seq<Byte>)
    requires g <= b
    ensures a + b == (a + g) + b[|g|..]
  {
    assert g == b[..|g|];
  }
}
