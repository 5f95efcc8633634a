/** The receive chain of the offline tool (sw/dsp/langford_dsp/main.cpp:66-154, 254-264): down
    conversion by table lookup, then a cascade of half-band decimations over swapped buffers. */
module Decimator {
  import opened Words
  import opened Division
  import opened HalfBand

  // ---- the decimation factor ----

  /** The exponent of the largest power of two not above `n`. */
  function Log2(n: nat): nat { if n < 2 then 0 else 1 + Log2(n / 2) }

  lemma {:induction false} Log2Bounds(n: nat)
    requires n >= 1
    ensures Pow2(Log2(n)) <= n < 2 * Pow2(Log2(n))
  {
    if n >= 2 { Log2Bounds(n / 2); }
  }

  /** No larger power of two is within the request. */
  lemma LargestPower(n: nat, k: nat)
    requires n >= 1
    ensures Pow2(k) <= n <==> k <= Log2(n)
  {
    Log2Bounds(n);
    if k < Log2(n) { PowersGrow(k, Log2(n)); }
    if k > Log2(n) { PowersGrow(Log2(n) + 1, k); }
  }

  /** Lines 66-72, making at most `limit` passes through the loop, which has no bound of its own: it
      ends after as many as the logarithm, and never for a negative request. A request of 0 gives
      the factor 1, like 1. */
  method DecimationFactor(request: int, limit: nat) returns (ended: bool, decimation: nat)
    ensures ended <==> 0 <= request && Log2(request) <= limit
    ensures ended ==> decimation == Pow2(Log2(request))
  {
    decimation := 1;
    var req: int := request / 2;
    var passes: nat := 0;
    while req != 0 && passes < limit
      invariant decimation == Pow2(passes) && passes <= limit
      invariant request < 0 ==> req < 0
      invariant request >= 0 ==> req >= 0 && Log2(request) == passes + (if req == 0 then 0 else 1 + Log2(req))
      decreases limit - passes
    {
      decimation := decimation * 2;
      req := req / 2;
      passes := passes + 1;
    }
    ended := req == 0;
  }

  // ---- down conversion ----

  /** C's remainder, which has the sign of `a`. */
  function Remainder(a: int, m: nat): int
    requires m > 0
  {
    if a >= 0 then a % m else -(-a % m)
  }

  /** No access is before the tables: a negative phase step is a multiple of their size. */
  predicate InTables(numSamples: nat, deltaPhi: int, size: nat)
    requires size > 0
  {
    numSamples == 0 || deltaPhi >= 0 || Remainder(deltaPhi, size) == 0
  }

  /** The table index at sample `i`: the phase has advanced `i + 1` times. */
  function PhaseAt(i: nat, deltaPhi: int, size: nat): nat
    requires size > 0
  {
    (i + 1) * deltaPhi % size
  }

  lemma PhaseAdvances(i: nat, deltaPhi: int, size: nat)
    requires size > 0 && InTables(1, deltaPhi, size)
    ensures PhaseAt(i + 1, deltaPhi, size) == Remainder(PhaseAt(i, deltaPhi, size) + deltaPhi, size)
  {
    if deltaPhi >= 0 {
      ModuloSum((i + 1) * deltaPhi, deltaPhi, size);
      assert (i + 2) * deltaPhi == (i + 1) * deltaPhi + deltaPhi;
    } else {
      NoPhase(i, deltaPhi, size);
      NoPhase(i + 1, deltaPhi, size);
    }
  }

  /** The first phase is negative exactly when the step is and is no multiple of the table size. */
  lemma FirstPhase(deltaPhi: int, size: nat)
    requires size > 0
    ensures Remainder(deltaPhi, size) >= 0 <==> InTables(1, deltaPhi, size)
    ensures InTables(1, deltaPhi, size) ==> PhaseAt(0, deltaPhi, size) == Remainder(deltaPhi, size)
  {
    if InTables(1, deltaPhi, size) && deltaPhi < 0 { NoPhase(0, deltaPhi, size); }
  }

  lemma NoPhase(i: nat, deltaPhi: int, size: nat)
    requires size > 0 && deltaPhi < 0 && Remainder(deltaPhi, size) == 0
    ensures PhaseAt(i, deltaPhi, size) == 0
  {
    DivMod(-deltaPhi, size);
    var q := -(-deltaPhi / size);
    assert deltaPhi == q * size;
    Regroup(i + 1, q, size);
    QuotientIs((i + 1) * deltaPhi, size, (i + 1) * q, 0);
  }

  lemma Regroup(a: int, b: int, c: int)
    ensures a * (b * c) == a * b * c
  {
  }

  /** The samples times the table entry the running phase selects. */
  function Mixed(sample: seq<int>, lut: seq<int>, deltaPhi: int): seq<int>
    requires |lut| > 0
  {
    seq(|sample|, i requires 0 <= i < |sample| => sample[i] * lut[PhaseAt(i, deltaPhi, |lut|)])
  }

  /** `DownConvert`: `ok` is false where the code reads before its tables, at the first sample. */
  method DownConvert(sample: array<int>, inphase: array<int>, quad: array<int>, numSamples: nat,
                     cosLUT: array<int>, sinLUT: array<int>, deltaPhi: int, lutSize: nat) returns (ok: bool)
    requires inphase != quad && inphase != sample && inphase != cosLUT && inphase != sinLUT
    requires quad != sample && quad != cosLUT && quad != sinLUT
    requires numSamples <= sample.Length && numSamples == inphase.Length == quad.Length
    requires lutSize > 0 && cosLUT.Length == lutSize && sinLUT.Length == lutSize
    modifies inphase, quad
    ensures ok <==> InTables(numSamples, deltaPhi, lutSize)
    ensures ok ==> inphase[..] == Mixed(sample[..numSamples], sinLUT[..], deltaPhi)
    ensures ok ==> quad[..] == Mixed(sample[..numSamples], cosLUT[..], deltaPhi)
  {
    var phi: int := 0;
    FirstPhase(deltaPhi, lutSize);
    for i := 0 to numSamples
      invariant i > 0 ==> InTables(1, deltaPhi, lutSize)
      invariant phi == (if i == 0 then 0 else PhaseAt(i - 1, deltaPhi, lutSize))
      invariant forall j :: 0 <= j < i ==> inphase[j] == sample[j] * sinLUT[PhaseAt(j, deltaPhi, lutSize)]
      invariant forall j :: 0 <= j < i ==> quad[j] == sample[j] * cosLUT[PhaseAt(j, deltaPhi, lutSize)]
    {
      if i > 0 { PhaseAdvances(i - 1, deltaPhi, lutSize); }
      phi := Remainder(phi + deltaPhi, lutSize);
      if phi < 0 { return false; }
      inphase[i] := sample[i] * sinLUT[phi];
      quad[i] := sample[i] * cosLUT[phi];
    }
    ok := true;
  }

  // ---- the cascade ----

  /** `k` decimations by two. */
  function Decimated(x: seq<int>, k: nat): seq<int> {
    if k == 0 then x else Halved(Decimated(x, k - 1))
  }

  /** The number of samples left is the number of whole groups of `2^k`. */
  lemma {:induction false} DecimatedLength(x: seq<int>, k: nat)
    ensures |Decimated(x, k)| == |x| / Pow2(k)
  {
    if k > 0 {
      DecimatedLength(x, k - 1);
      HalfOfQuotient(|x|, Pow2(k - 1));
    }
  }

  lemma HalfOfQuotient(n: nat, d: nat)
    requires d > 0
    ensures n / d / 2 == n / (2 * d)
  {
    QuotientByTwice(n, d, 2 * d);
  }

  lemma QuotientByTwice(n: nat, d: nat, twice: nat)
    requires d > 0 && twice == 2 * d
    ensures n / d / 2 == n / twice
  {
    DivMod(n, twice);
    var q, r := n / twice, n % twice;
    assert q * twice == 2 * q * d;
    if r < d { QuotientIs(n, d, 2 * q, r); } else { OneMore(2 * q, d); QuotientIs(n, d, 2 * q + 1, r - d); }
  }

  lemma OneMore(k: nat, d: nat)
    ensures (k + 1) * d == k * d + d
  {
  }

  /** The loop variable after `t` of `k` decimations. */
  function Remaining(k: nat, t: nat): nat
    requires t <= k
  {
    if t < k then Pow2(k - 1 - t) else 0
  }

  lemma FactorStarts(k: nat)
    ensures Pow2(k) / 2 == Remaining(k, 0)
  {
  }

  lemma FactorHalves(k: nat, t: nat)
    requires t < k
    ensures Remaining(k, t) / 2 == Remaining(k, t + 1) && Remaining(k, t) > 0
  {
  }

  lemma DecimatedOnce(x: seq<int>, t: nat, next: seq<int>, now: seq<int>)
    requires now == Decimated(x, t) && next == Halved(now)
    ensures next == Decimated(x, t + 1)
  {
  }

  /** Lines 139-140: both signals decimated into the spare buffers. */
  method Stage(inphase: array<int>, quad: array<int>, spareI: array<int>, spareQ: array<int>, n: nat)
    requires inphase != spareI && inphase != spareQ && quad != spareI && quad != spareQ && spareI != spareQ
    requires n <= inphase.Length == quad.Length == spareI.Length == spareQ.Length
    modifies spareI, spareQ
    ensures spareI[..n / 2] == Halved(inphase[..n]) && spareQ[..n / 2] == Halved(quad[..n])
  {
    DecimateBy2(inphase, spareI, n);
    DecimateBy2(quad, spareQ, n);
  }

  /** Lines 132-154: as many decimations as the factor has doublings, in buffers that stay the
      same four, pairwise distinct; `inphase` and `quad` end with the decimated signals in front. */
  method Cascade(inphase0: array<int>, quad0: array<int>, spareI0: array<int>, spareQ0: array<int>, numSamples: nat,
                 factor: nat, ghost k: nat)
      returns (inphase: array<int>, quad: array<int>, spareI: array<int>, spareQ: array<int>, currNumSamples: nat)
    requires factor == Pow2(k)
    requires inphase0 != quad0 && inphase0 != spareI0 && inphase0 != spareQ0
    requires quad0 != spareI0 && quad0 != spareQ0 && spareI0 != spareQ0
    requires numSamples == inphase0.Length == quad0.Length == spareI0.Length == spareQ0.Length
    modifies inphase0, quad0, spareI0, spareQ0
    ensures (inphase == inphase0 && spareI == spareI0) || (inphase == spareI0 && spareI == inphase0)
    ensures (quad == quad0 && spareQ == spareQ0) || (quad == spareQ0 && spareQ == quad0)
    ensures currNumSamples == numSamples / factor && currNumSamples <= numSamples
    ensures inphase[..currNumSamples] == Decimated(old(inphase0[..]), k)
    ensures quad[..currNumSamples] == Decimated(old(quad0[..]), k)
  {
    inphase, quad, spareI, spareQ := inphase0, quad0, spareI0, spareQ0;
    currNumSamples := numSamples;
    var decimation := factor / 2;
    ghost var t: nat := 0;
    ghost var x, y := inphase0[..], quad0[..];
    assert inphase[..currNumSamples] == x && quad[..currNumSamples] == y;
    FactorStarts(k);
    while decimation != 0
      invariant (inphase == inphase0 && spareI == spareI0) || (inphase == spareI0 && spareI == inphase0)
      invariant (quad == quad0 && spareQ == spareQ0) || (quad == spareQ0 && spareQ == quad0)
      invariant t <= k && decimation == Remaining(k, t)
      invariant currNumSamples <= numSamples
      invariant inphase[..currNumSamples] == Decimated(x, t) && quad[..currNumSamples] == Decimated(y, t)
      decreases decimation
    {
      Stage(inphase, quad, spareI, spareQ, currNumSamples);
      DecimatedOnce(x, t, spareI[..currNumSamples / 2], inphase[..currNumSamples]);
      DecimatedOnce(y, t, spareQ[..currNumSamples / 2], quad[..currNumSamples]);
      FactorHalves(k, t);
      inphase, spareI := spareI, inphase;
      quad, spareQ := spareQ, quad;
      currNumSamples := currNumSamples / 2;
      decimation := decimation / 2;
      t := t + 1;
    }
    DecimatedLength(x, k);
  }

  /** Lines 66-154 between reading the samples and writing the results, with at most `limit` passes of
      the first loop: `ok` if that ends and no read is before the tables. Then the two signals
      written out are the mixed samples decimated by the largest power of two within the request. */
  method Process(sample: array<int>, numSamples: nat, request: int, limit: nat, cosLUT: array<int>, sinLUT: array<int>,
                 deltaPhi: int, lutSize: nat)
      returns (ok: bool, inphase: array<int>, quad: array<int>, currNumSamples: nat)
    requires numSamples <= sample.Length && lutSize > 0 && cosLUT.Length == lutSize && sinLUT.Length == lutSize
    ensures ok <==> 0 <= request && Log2(request) <= limit && InTables(numSamples, deltaPhi, lutSize)
    ensures ok ==> currNumSamples == numSamples / Pow2(Log2(request))
    ensures currNumSamples <= inphase.Length && currNumSamples <= quad.Length
    ensures ok ==>
              inphase[..currNumSamples] == Decimated(Mixed(sample[..numSamples], sinLUT[..], deltaPhi), Log2(request))
    ensures ok ==>
              quad[..currNumSamples] == Decimated(Mixed(sample[..numSamples], cosLUT[..], deltaPhi), Log2(request))
  {
    var ended, decimation := DecimationFactor(request, limit);
    inphase, quad := new int[numSamples], new int[numSamples];
    currNumSamples := numSamples;
    if !ended { return false, inphase, quad, numSamples; }
    var spareI, spareQ := new int[numSamples], new int[numSamples];
    ok := DownConvert(sample, inphase, quad, numSamples, cosLUT, sinLUT, deltaPhi, lutSize);
    if !ok { return; }
    inphase, quad, spareI, spareQ, currNumSamples :=
      Cascade(inphase, quad, spareI, spareQ, numSamples, decimation, Log2(request));
  }
}
