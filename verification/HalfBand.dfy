/** The half-band filter and decimator `DecimateBy2` (sw/dsp/langford_dsp/main.cpp:214-237), over
    exact reals. */
module HalfBand {

  const GAIN: real := 3125.116703

  /** The weights of the input `k` samples ago. */
  function Forward(k: nat): real {
    if k == 0 || k == 10 then 1.0
    else if k == 1 || k == 9 then 10.0
    else if k == 2 || k == 8 then 45.0
    else if k == 3 || k == 7 then 120.0
    else if k == 4 || k == 6 then 210.0
    else if k == 5 then 252.0
    else 0.0
  }

  /** The weights of the output `k` samples ago. */
  function Back(k: nat): real {
    if k == 1 then 3.2331357374
    else if k == 2 then -7.2908812246
    else if k == 3 then 11.6333850960
    else if k == 4 then -14.5697155560
    else if k == 5 then 14.4976786330
    else if k == 6 then -11.5735533520
    else if k == 7 then 7.3107119587
    else if k == 8 then -3.5333054455
    else if k == 9 then 1.2030513372
    else if k == 10 then -0.2381749476
    else 0.0
  }

  /** The scaled input, zero outside the samples. */
  function Input(x: seq<real>, n: int): real {
    if 0 <= n < |x| then x[n] / GAIN else 0.0
  }

  /** A weighted value of a signal. */
  function Weighted(w: real, u: real): real { w * u }

  /** The first `k` feed-forward terms. */
  function Forwards(x: seq<real>, n: int, k: nat): real {
    if k == 0 then 0.0 else Forwards(x, n, k - 1) + Weighted(Forward(k - 1), Input(x, n - (k - 1)))
  }

  /** The first `k` feedback terms. */
  function Backs(x: seq<real>, n: nat, k: nat): real
    decreases n + 1, 0, k
  {
    if k == 0 then 0.0 else Backs(x, n, k - 1) + Weighted(Back(k), Output(x, n - k))
  }

  /** The difference equation, at rest before the first sample. */
  function Output(x: seq<real>, n: int): real
    decreases if n < 0 then 0 else n + 1, 1
  {
    if n < 0 then 0.0 else Forwards(x, n, 11) + Backs(x, n, 10)
  }

  // ---- laws of the filter ----

  /** The output of the moment uses no later sample. */
  lemma {:induction false} Causal(x: seq<real>, z: seq<real>, n: int)
    requires forall m :: 0 <= m <= n ==> Input(x, m) == Input(z, m)
    ensures Output(x, n) == Output(z, n)
    decreases if n < 0 then 0 else n + 1, 1
  {
    if n >= 0 {
      ForwardsCausal(x, z, n, 11);
      BacksCausal(x, z, n, 10);
    }
  }

  lemma {:induction false} ForwardsCausal(x: seq<real>, z: seq<real>, n: int, k: nat)
    requires forall m :: 0 <= m <= n ==> Input(x, m) == Input(z, m)
    ensures Forwards(x, n, k) == Forwards(z, n, k)
  {
    if k > 0 {
      ForwardsCausal(x, z, n, k - 1);
      assert Input(x, n - (k - 1)) == Input(z, n - (k - 1));
    }
  }

  lemma {:induction false} BacksCausal(x: seq<real>, z: seq<real>, n: nat, k: nat)
    requires forall m :: 0 <= m <= n ==> Input(x, m) == Input(z, m)
    ensures Backs(x, n, k) == Backs(z, n, k)
    decreases n + 1, 0, k
  {
    if k > 0 {
      BacksCausal(x, z, n, k - 1);
      Causal(x, z, n - k);
    }
  }

  /** The pointwise combination of two equally long signals. */
  function Combine(a: real, x: seq<real>, b: real, z: seq<real>): seq<real>
    requires |x| == |z|
  {
    seq(|x|, i requires 0 <= i < |x| => a * x[i] + b * z[i])
  }

  function Mix(a: real, u: real, b: real, v: real): real { a * u + b * v }

  lemma MixSum(a: real, s: real, u: real, b: real, t: real, v: real)
    ensures Mix(a, s, b, t) + Mix(a, u, b, v) == Mix(a, s + u, b, t + v)
  {
  }

  lemma MixWeighted(w: real, a: real, u: real, b: real, v: real)
    ensures Weighted(w, Mix(a, u, b, v)) == Mix(a, Weighted(w, u), b, Weighted(w, v))
  {
  }

  lemma InputLinear(a: real, x: seq<real>, b: real, z: seq<real>, n: int)
    requires |x| == |z|
    ensures Input(Combine(a, x, b, z), n) == Mix(a, Input(x, n), b, Input(z, n))
  {
    if 0 <= n < |x| { Scaled(a, x[n], b, z[n]); }
  }

  lemma Scaled(a: real, u: real, b: real, v: real)
    ensures (a * u + b * v) / GAIN == a * (u / GAIN) + b * (v / GAIN)
  {
  }

  /** The filter is linear. */
  lemma {:induction false} Linear(a: real, x: seq<real>, b: real, z: seq<real>, n: int)
    requires |x| == |z|
    ensures Output(Combine(a, x, b, z), n) == Mix(a, Output(x, n), b, Output(z, n))
    decreases if n < 0 then 0 else n + 1, 1
  {
    if n >= 0 {
      ForwardsLinear(a, x, b, z, n, 11);
      BacksLinear(a, x, b, z, n, 10);
      MixSum(a, Forwards(x, n, 11), Backs(x, n, 10), b, Forwards(z, n, 11), Backs(z, n, 10));
    }
  }

  lemma {:induction false} ForwardsLinear(a: real, x: seq<real>, b: real, z: seq<real>, n: int, k: nat)
    requires |x| == |z|
    ensures Forwards(Combine(a, x, b, z), n, k) == Mix(a, Forwards(x, n, k), b, Forwards(z, n, k))
  {
    if k > 0 {
      var m, w := n - (k - 1), Forward(k - 1);
      ForwardsLinear(a, x, b, z, n, k - 1);
      InputLinear(a, x, b, z, m);
      MixWeighted(w, a, Input(x, m), b, Input(z, m));
      MixSum(a, Forwards(x, n, k - 1), Weighted(w, Input(x, m)), b, Forwards(z, n, k - 1), Weighted(w, Input(z, m)));
    }
  }

  lemma {:induction false} BacksLinear(a: real, x: seq<real>, b: real, z: seq<real>, n: nat, k: nat)
    requires |x| == |z|
    ensures Backs(Combine(a, x, b, z), n, k) == Mix(a, Backs(x, n, k), b, Backs(z, n, k))
    decreases n + 1, 0, k
  {
    if k > 0 {
      var w := Back(k);
      BacksLinear(a, x, b, z, n, k - 1);
      Linear(a, x, b, z, n - k);
      MixWeighted(w, a, Output(x, n - k), b, Output(z, n - k));
      MixSum(a, Backs(x, n, k - 1), Weighted(w, Output(x, n - k)),
             b, Backs(z, n, k - 1), Weighted(w, Output(z, n - k)));
    }
  }

  // ---- the implementation ----

  /** A C conversion to int. */
  function Truncate(r: real): int { if r >= 0.0 then r.Floor else -((-r).Floor) }

  /** It drops the fraction: nearest to zero among the integers within one of the value. */
  lemma TruncatesTowardZero(r: real)
    ensures r >= 0.0 ==> 0.0 <= Truncate(r) as real <= r < Truncate(r) as real + 1.0
    ensures r <= 0.0 ==> Truncate(r) as real - 1.0 < r <= Truncate(r) as real <= 0.0
  {
  }

  function Reals(x: seq<int>): seq<real> { seq(|x|, i requires 0 <= i < |x| => x[i] as real) }

  /** The filtered sample at time `n`, as the integer buffers hold it. */
  function Filtered(x: seq<int>, n: int): int { Truncate(Output(Reals(x), n)) }

  /** What decimation by two makes of samples: the outputs at odd times. */
  function Halved(x: seq<int>): seq<int> {
    seq(|x| / 2, j requires 0 <= j < |x| / 2 => Filtered(x, 2 * j + 1))
  }

  /** Lines 225 and 227, each spelt out for the ten elements. */
  method ShiftDown(a: array<real>)
    requires a.Length == 11
    modifies a
    ensures a[..10] == old(a[1..]) && a[10] == old(a[10])
  {
    for j := 0 to 10
      invariant a[..j] == old(a[1..])[..j] && a[j..] == old(a[j..])
    {
      a[j] := a[j + 1];
    }
  }

  /** The sum of lines 228-234 over the two windows, oldest element first. */
  function Sum(xv: seq<real>, yv: seq<real>): real
    requires |xv| == 11 && |yv| == 11
  {
    (xv[0] + xv[10]) + 10.0 * (xv[1] + xv[9]) + 45.0 * (xv[2] + xv[8])
    + 120.0 * (xv[3] + xv[7]) + 210.0 * (xv[4] + xv[6]) + 252.0 * xv[5]
    + (-0.2381749476 * yv[0]) + (1.2030513372 * yv[1])
    + (-3.5333054455 * yv[2]) + (7.3107119587 * yv[3])
    + (-11.5735533520 * yv[4]) + (14.4976786330 * yv[5])
    + (-14.5697155560 * yv[6]) + (11.6333850960 * yv[7])
    + (-7.2908812246 * yv[8]) + (3.2331357374 * yv[9])
  }

  /** The windows hold the last eleven inputs and the ten outputs before time `n`. */
  predicate Windows(x: seq<real>, n: nat, xv: seq<real>, yv: seq<real>) {
    && |xv| == 11 && |yv| == 11
    && (forall j :: 0 <= j <= 10 ==> xv[j] == Input(x, n - 10 + j))
    && (forall j :: 0 <= j <= 9 ==> yv[j] == Output(x, n - 10 + j))
  }

  lemma SumForwards(x: seq<real>, n: nat, xv: seq<real>)
    requires |xv| == 11 && forall j :: 0 <= j <= 10 ==> xv[j] == Input(x, n - 10 + j)
    ensures Forwards(x, n, 11) == xv[0] + xv[10] + 10.0 * (xv[1] + xv[9]) + 45.0 * (xv[2] + xv[8])
                                  + 120.0 * (xv[3] + xv[7]) + 210.0 * (xv[4] + xv[6]) + 252.0 * xv[5]
  {
    assert Forwards(x, n, 1) == xv[10];
    assert Forwards(x, n, 2) == Forwards(x, n, 1) + 10.0 * xv[9];
    assert Forwards(x, n, 3) == Forwards(x, n, 2) + 45.0 * xv[8];
    assert Forwards(x, n, 4) == Forwards(x, n, 3) + 120.0 * xv[7];
    assert Forwards(x, n, 5) == Forwards(x, n, 4) + 210.0 * xv[6];
    assert Forwards(x, n, 6) == Forwards(x, n, 5) + 252.0 * xv[5];
    assert Forwards(x, n, 7) == Forwards(x, n, 6) + 210.0 * xv[4];
    assert Forwards(x, n, 8) == Forwards(x, n, 7) + 120.0 * xv[3];
    assert Forwards(x, n, 9) == Forwards(x, n, 8) + 45.0 * xv[2];
    assert Forwards(x, n, 10) == Forwards(x, n, 9) + 10.0 * xv[1];
    assert Forwards(x, n, 11) == Forwards(x, n, 10) + xv[0];
  }

  lemma SumBacks(x: seq<real>, n: nat, yv: seq<real>)
    requires |yv| == 11 && forall j :: 0 <= j <= 9 ==> yv[j] == Output(x, n - 10 + j)
    ensures Backs(x, n, 10) ==
              -0.2381749476 * yv[0] + 1.2030513372 * yv[1] + -3.5333054455 * yv[2] + 7.3107119587 * yv[3]
              + -11.5735533520 * yv[4] + 14.4976786330 * yv[5] + -14.5697155560 * yv[6] + 11.6333850960 * yv[7]
              + -7.2908812246 * yv[8] + 3.2331357374 * yv[9]
  {
    assert Backs(x, n, 1) == 3.2331357374 * yv[9];
    assert Backs(x, n, 2) == Backs(x, n, 1) + -7.2908812246 * yv[8];
    assert Backs(x, n, 3) == Backs(x, n, 2) + 11.6333850960 * yv[7];
    assert Backs(x, n, 4) == Backs(x, n, 3) + -14.5697155560 * yv[6];
    assert Backs(x, n, 5) == Backs(x, n, 4) + 14.4976786330 * yv[5];
    assert Backs(x, n, 6) == Backs(x, n, 5) + -11.5735533520 * yv[4];
    assert Backs(x, n, 7) == Backs(x, n, 6) + 7.3107119587 * yv[3];
    assert Backs(x, n, 8) == Backs(x, n, 7) + -3.5333054455 * yv[2];
    assert Backs(x, n, 9) == Backs(x, n, 8) + 1.2030513372 * yv[1];
    assert Backs(x, n, 10) == Backs(x, n, 9) + -0.2381749476 * yv[0];
  }

  /** The sum over the windows is the difference equation. */
  lemma SumIsOutput(x: seq<real>, n: nat, xv: seq<real>, yv: seq<real>)
    requires Windows(x, n, xv, yv)
    ensures Sum(xv, yv) == Output(x, n)
  {
    SumForwards(x, n, xv);
    SumBacks(x, n, yv);
  }

  /** The windows after the loop body has shifted them for time `n`. */
  lemma Shifted(x: seq<real>, n: nat, xv: seq<real>, yv: seq<real>, xv': seq<real>, yv': seq<real>)
    requires |xv| == 11 && |yv| == 11 && |xv'| == 11 && |yv'| == 11
    requires forall j :: 0 <= j <= 10 ==> xv[j] == Input(x, n - 11 + j) && yv[j] == Output(x, n - 11 + j)
    requires xv'[..10] == xv[1..] && xv'[10] == Input(x, n) && yv'[..10] == yv[1..]
    ensures Windows(x, n, xv', yv')
  {
    forall j | 0 <= j <= 9 ensures xv'[j] == xv[j + 1] && yv'[j] == yv[j + 1] {
      assert xv'[j] == xv'[..10][j] == xv[1..][j] && yv'[j] == yv'[..10][j] == yv[1..][j];
    }
  }

  /** The windows between two passes: eleven inputs and outputs up to time `n - 1`. */
  predicate UpTo(x: seq<real>, n: nat, xv: seq<real>, yv: seq<real>) {
    |xv| == 11 && |yv| == 11
    && forall j :: 0 <= j <= 10 ==> xv[j] == Input(x, n - 11 + j) && yv[j] == Output(x, n - 11 + j)
  }

  lemma AtRest(x: seq<real>, xv: seq<real>, yv: seq<real>)
    requires |xv| == 11 && |yv| == 11 && forall j :: 0 <= j <= 10 ==> xv[j] == 0.0 && yv[j] == 0.0
    ensures UpTo(x, 0, xv, yv)
  {
  }

  /** Lines 225-234: one pass of the filter. */
  method Advance(xv: array<real>, yv: array<real>, sample: int, ghost x: seq<real>, ghost n: nat)
    requires xv != yv && UpTo(x, n, xv[..], yv[..]) && n < |x| && x[n] == sample as real
    modifies xv, yv
    ensures UpTo(x, n + 1, xv[..], yv[..]) && yv[10] == Output(x, n)
  {
    ghost var xw, yw := xv[..], yv[..];
    ShiftDown(xv);
    xv[10] := sample as real / GAIN;
    ShiftDown(yv);
    Shifted(x, n, xw, yw, xv[..], yv[..]);
    SumIsOutput(x, n, xv[..], yv[..]);
    yv[10] := Sum(xv[..], yv[..]);
  }

  /** `DecimateBy2`: for every number of samples the new buffer starts with the outputs at odd
      times; with an odd number, one element more holds the last output. The rest of it and the
      old buffer are untouched. */
  method DecimateBy2(oldSamples: array<int>, newSamples: array<int>, oldNumSamples: nat)
    requires oldSamples != newSamples && oldNumSamples <= oldSamples.Length && oldNumSamples <= newSamples.Length
    modifies newSamples
    ensures newSamples[..oldNumSamples / 2] == Halved(oldSamples[..oldNumSamples])
    ensures forall j :: 0 <= j < oldNumSamples / 2 ==>
              newSamples[j] == Filtered(oldSamples[..oldNumSamples], 2 * j + 1)
    ensures oldNumSamples % 2 == 1 ==>
              newSamples[oldNumSamples / 2] == Filtered(oldSamples[..oldNumSamples], oldNumSamples - 1)
    ensures newSamples[(oldNumSamples + 1) / 2..] == old(newSamples[(oldNumSamples + 1) / 2..])
  {
    var xv, yv := new real[11], new real[11];
    ghost var samples, was := oldSamples[..oldNumSamples], newSamples[..];
    for i := 0 to 11
      invariant newSamples[..] == was
      invariant forall j :: 0 <= j < i ==> xv[j] == 0.0 && yv[j] == 0.0
    {
      xv[i], yv[i] := 0.0, 0.0;
    }
    AtRest(Reals(samples), xv[..], yv[..]);
    for i := 0 to oldNumSamples
      invariant UpTo(Reals(samples), i, xv[..], yv[..])
      invariant Partial(samples, was, i, newSamples[..])
    {
      ghost var before := newSamples[..];
      Advance(xv, yv, oldSamples[i], Reals(samples), i);
      newSamples[i / 2] := Truncate(yv[10]);
      PartialNext(samples, was, i, before, newSamples[..]);
    }
    PartialAll(samples, was, newSamples[..]);
  }

  /** The new buffer after `i` passes, which held `was`. */
  predicate Partial(x: seq<int>, was: seq<int>, i: nat, now: seq<int>) {
    && |now| == |was| && (i + 1) / 2 <= |now|
    && (forall j :: 0 <= j < i / 2 ==> now[j] == Filtered(x, 2 * j + 1))
    && (i % 2 == 1 ==> now[i / 2] == Filtered(x, i - 1))
    && (forall j :: (i + 1) / 2 <= j < |now| ==> now[j] == was[j])
  }

  lemma PartialAll(x: seq<int>, was: seq<int>, now: seq<int>)
    requires Partial(x, was, |x|, now)
    ensures now[..|x| / 2] == Halved(x) && now[(|x| + 1) / 2..] == was[(|x| + 1) / 2..]
  {
  }

  lemma PartialNext(x: seq<int>, was: seq<int>, i: nat, now: seq<int>, next: seq<int>)
    requires Partial(x, was, i, now) && i < |now| && next == now[i / 2 := Filtered(x, i)]
    ensures Partial(x, was, i + 1, next)
  {
    if i % 2 == 1 { assert 2 * (i / 2) + 1 == i; }
  }

  // ---- what the filter is designed for ----

  /** The input after `j` times adding to each sample the one before it. */
  function Smoothed(x: seq<real>, n: int, j: nat): real
    decreases j
  {
    if j == 0 then Input(x, n) else Smoothed(x, n, j - 1) + Smoothed(x, n - 1, j - 1)
  }

  lemma SmoothTwice(x: seq<real>, n: int, j: nat)
    ensures Smoothed(x, n, j + 2) == Smoothed(x, n, j) + 2.0 * Smoothed(x, n - 1, j) + Smoothed(x, n - 2, j)
  {
    assert Smoothed(x, n, j + 2) == Smoothed(x, n, j + 1) + Smoothed(x, n - 1, j + 1);
    assert Smoothed(x, n - 1, j + 1) == Smoothed(x, n - 1, j) + Smoothed(x, n - 2, j);
  }

  lemma SmoothFiveTimes(x: seq<real>, n: int, j: nat)
    ensures Smoothed(x, n, j + 5) ==
              Smoothed(x, n, j) + 5.0 * Smoothed(x, n - 1, j) + 10.0 * Smoothed(x, n - 2, j)
              + 10.0 * Smoothed(x, n - 3, j) + 5.0 * Smoothed(x, n - 4, j) + Smoothed(x, n - 5, j)
  {
    assert Smoothed(x, n, j + 5) == Smoothed(x, n, j + 4) + Smoothed(x, n - 1, j + 4);
    SmoothTwice(x, n, j + 2);
    SmoothTwice(x, n - 1, j + 2);
    SmoothTwice(x, n, j);
    SmoothTwice(x, n - 1, j);
    SmoothTwice(x, n - 2, j);
    SmoothTwice(x, n - 3, j);
  }

  lemma SmoothTenTimes(x: seq<real>, n: int)
    ensures Smoothed(x, n, 10) ==
              Input(x, n) + 10.0 * Input(x, n - 1) + 45.0 * Input(x, n - 2) + 120.0 * Input(x, n - 3)
              + 210.0 * Input(x, n - 4) + 252.0 * Input(x, n - 5) + 210.0 * Input(x, n - 6) + 120.0 * Input(x, n - 7)
              + 45.0 * Input(x, n - 8) + 10.0 * Input(x, n - 9) + Input(x, n - 10)
  {
    SmoothFiveTimes(x, n, 5);
    SmoothFiveTimes(x, n, 0);
    SmoothFiveTimes(x, n - 1, 0);
    SmoothFiveTimes(x, n - 2, 0);
    SmoothFiveTimes(x, n - 3, 0);
    SmoothFiveTimes(x, n - 4, 0);
    SmoothFiveTimes(x, n - 5, 0);
  }

  /** The feed-forward part adds each sample to the one before it, ten times over. */
  lemma ForwardsSmooth(x: seq<real>, n: nat)
    ensures Forwards(x, n, 11) == Smoothed(x, n, 10)
  {
    SumForwards(x, n, Signal(x, n, 11).0);
    SmoothTenTimes(x, n);
  }

  /** The last `len` inputs and outputs up to time `n`. */
  function Signal(x: seq<real>, n: int, len: nat): (seq<real>, seq<real>) {
    (seq(len, j requires 0 <= j < len => Input(x, n + 1 - len + j)),
     seq(len, j requires 0 <= j < len => Output(x, n + 1 - len + j)))
  }

  /** So nothing of a signal at half the sampling rate passes. */
  lemma {:induction false} AlternatingVanishes(x: seq<real>, n: int, j: nat)
    requires j > 0 && forall m :: n - j < m <= n ==> Input(x, m) == -Input(x, m - 1)
    ensures Smoothed(x, n, j) == 0.0
    decreases j
  {
    if j > 1 {
      AlternatingVanishes(x, n, j - 1);
      AlternatingVanishes(x, n - 1, j - 1);
    } else {
      assert Input(x, n) == -Input(x, n - 1);
    }
  }

  /** A steady signal passes as it is: where eleven inputs are `c` and the outputs have settled at `u`
      to within `d`, the two differ by less than a billionth and 233 times `d`. */
  lemma SteadyPasses(x: seq<real>, n: nat, c: real, u: real, d: real)
    requires forall m :: n - 10 <= m <= n ==> Input(x, m) == c / GAIN && Near(Output(x, m), u, d)
    ensures Near(u, c, Magnitude(c) / 1000000000.0 + 233.0 * d)
  {
    var (xv, yv) := Signal(x, n, 11);
    SumIsOutput(x, n, xv, yv);
    SteadySum(xv, yv, c / GAIN, u, d);
    Settled(Output(x, n), c, u, d);
  }

  function Magnitude(r: real): real { if r < 0.0 then -r else r }

  predicate Near(a: real, b: real, d: real) { -d <= a - b <= d }

  lemma SteadySum(xv: seq<real>, yv: seq<real>, v: real, u: real, d: real)
    requires |xv| == 11 && |yv| == 11
    requires forall j :: 0 <= j <= 10 ==> xv[j] == v && Near(yv[j], u, d)
    ensures Near(Sum(xv, yv), 1024.0 * v + 0.6723322366 * u, 75.1 * d)
  {
  }

  lemma Settled(y: real, c: real, u: real, d: real)
    requires Near(y, u, d) && Near(y, 1024.0 * (c / GAIN) + 0.6723322366 * u, 75.1 * d)
    ensures Near(u, c, Magnitude(c) / 1000000000.0 + 233.0 * d)
  {
  }

  lemma SumOfSignal(x: seq<real>, n: nat)
    ensures Sum(Signal(x, n, 11).0, Signal(x, n, 11).1) == Output(x, n)
  {
    SumIsOutput(x, n, Signal(x, n, 11).0, Signal(x, n, 11).1);
  }

  /** Each sample is the opposite of the one two before it: a quarter of the sampling rate. */
  predicate QuarterRate(v: seq<real>) { forall j :: 0 <= j < |v| - 2 ==> v[j + 2] == -v[j] }

  function Square(r: real): real { r * r }

  /** Two scaled inputs a quarter period apart, and two such outputs. */
  predicate PowerKept(a: real, b: real, p: real, q: real) {
    var power := Square(a * GAIN) + Square(b * GAIN);
    0.9999999 * power <= Square(p) + Square(q) <= power
  }

  /** A signal at a quarter of the sampling rate, the edge of the pass band, keeps its power to a ten
      millionth, once twelve samples of input and output are such signals. */
  lemma QuarterPasses(x: seq<real>, n: nat)
    requires QuarterRate(Signal(x, n + 1, 12).0) && QuarterRate(Signal(x, n + 1, 12).1)
    ensures PowerKept(Input(x, n), Input(x, n - 1), Output(x, n), Output(x, n - 1))
  {
    QuarterBefore(x, n);
    QuarterStep(x, n);
    QuarterStep(x, n + 1);
    QuarterEquations(Input(x, n), Input(x, n - 1), Output(x, n), Output(x, n - 1));
  }

  lemma QuarterBefore(x: seq<real>, n: int)
    requires QuarterRate(Signal(x, n + 1, 12).0) && QuarterRate(Signal(x, n + 1, 12).1)
    ensures QuarterRate(Signal(x, n, 11).0) && QuarterRate(Signal(x, n, 11).1)
    ensures QuarterRate(Signal(x, n + 1, 11).0) && QuarterRate(Signal(x, n + 1, 11).1)
    ensures Input(x, n + 1) == -Input(x, n - 1) && Output(x, n + 1) == -Output(x, n - 1)
  {
    var (xs, ys) := Signal(x, n + 1, 12);
    assert Signal(x, n, 11).0 == xs[..11] && Signal(x, n, 11).1 == ys[..11];
    assert Signal(x, n + 1, 11).0 == xs[1..] && Signal(x, n + 1, 11).1 == ys[1..];
    assert xs[11] == -xs[9] && ys[11] == -ys[9];
  }

  lemma QuarterStep(x: seq<real>, n: nat)
    requires QuarterRate(Signal(x, n, 11).0) && QuarterRate(Signal(x, n, 11).1)
    ensures Output(x, n) == 32.0 * Input(x, n - 1) + 0.9995885227 * Output(x, n) - 0.0102313471 * Output(x, n - 1)
  {
    QuarterSum(Signal(x, n, 11).0, Signal(x, n, 11).1, Input(x, n), Input(x, n - 1), Output(x, n), Output(x, n - 1));
    SumOfSignal(x, n);
  }

  lemma QuarterSum(xv: seq<real>, yv: seq<real>, a: real, b: real, p: real, q: real)
    requires |xv| == 11 && |yv| == 11
    requires QuarterRate(xv) && QuarterRate(yv)
    requires xv[10] == a && xv[9] == b && yv[10] == p && yv[9] == q
    ensures Sum(xv, yv) == 32.0 * b + 0.9995885227 * p - 0.0102313471 * q
  {
    assert xv[8] == -a && xv[7] == -b && xv[6] == a && xv[5] == b && xv[4] == -a && xv[3] == -b;
    assert yv[8] == -p && yv[7] == -q && yv[6] == p && yv[5] == q && yv[4] == -p && yv[3] == -q;
  }

  lemma QuarterEquations(a: real, b: real, p: real, q: real)
    requires p == 32.0 * b + 0.9995885227 * p - 0.0102313471 * q
    requires -q == 32.0 * a + 0.9995885227 * -q - 0.0102313471 * p
    ensures PowerKept(a, b, p, q)
  {
  }

  /** Each sample is the opposite of the sum of the two before it: a third of the sampling rate. */
  predicate ThirdRate(v: seq<real>) { forall j :: 0 <= j < |v| - 2 ==> v[j + 2] == -v[j + 1] - v[j] }

  /** The power of such a signal, up to a constant, by two successive samples. */
  function ThirdPower(u: real, v: real): real { u * u + u * v + v * v }

  predicate PowerStopped(a: real, b: real, p: real, q: real) {
    var power := ThirdPower(a * GAIN, b * GAIN);
    464000000.0 * ThirdPower(p, q) <= power <= 465000000.0 * ThirdPower(p, q)
  }

  /** Of a signal at a third of the sampling rate, which leaving out every other sample would take for
      another, less than one part in 464 million of the power passes. */
  lemma ThirdStops(x: seq<real>, n: nat)
    requires ThirdRate(Signal(x, n + 1, 12).0) && ThirdRate(Signal(x, n + 1, 12).1)
    ensures PowerStopped(Input(x, n), Input(x, n - 1), Output(x, n), Output(x, n - 1))
  {
    ThirdBefore(x, n);
    ThirdStep(x, n);
    ThirdStep(x, n + 1);
    ThirdEquations(Input(x, n), Input(x, n - 1), Output(x, n), Output(x, n - 1));
  }

  lemma ThirdBefore(x: seq<real>, n: int)
    requires ThirdRate(Signal(x, n + 1, 12).0) && ThirdRate(Signal(x, n + 1, 12).1)
    ensures ThirdRate(Signal(x, n, 11).0) && ThirdRate(Signal(x, n, 11).1)
    ensures ThirdRate(Signal(x, n + 1, 11).0) && ThirdRate(Signal(x, n + 1, 11).1)
    ensures Input(x, n + 1) == -Input(x, n) - Input(x, n - 1) && Output(x, n + 1) == -Output(x, n) - Output(x, n - 1)
  {
    var (xs, ys) := Signal(x, n + 1, 12);
    assert Signal(x, n, 11).0 == xs[..11] && Signal(x, n, 11).1 == ys[..11];
    assert Signal(x, n + 1, 11).0 == xs[1..] && Signal(x, n + 1, 11).1 == ys[1..];
    assert xs[11] == -xs[10] - xs[9] && ys[11] == -ys[10] - ys[9];
  }

  lemma ThirdStep(x: seq<real>, n: nat)
    requires ThirdRate(Signal(x, n, 11).0) && ThirdRate(Signal(x, n, 11).1)
    ensures Output(x, n) ==
              -Input(x, n) - Input(x, n - 1) - 2.4106088817 * Output(x, n) - 7.9375347704 * Output(x, n - 1)
  {
    ThirdSum(Signal(x, n, 11).0, Signal(x, n, 11).1, Input(x, n), Input(x, n - 1), Output(x, n), Output(x, n - 1));
    SumOfSignal(x, n);
  }

  lemma ThirdSum(xv: seq<real>, yv: seq<real>, a: real, b: real, p: real, q: real)
    requires |xv| == 11 && |yv| == 11
    requires ThirdRate(xv) && ThirdRate(yv)
    requires xv[10] == a && xv[9] == b && yv[10] == p && yv[9] == q
    ensures Sum(xv, yv) == -a - b - 2.4106088817 * p - 7.9375347704 * q
  {
    assert xv[8] == -a - b && xv[7] == a && xv[6] == b && xv[5] == -a - b && xv[4] == a && xv[3] == b;
    assert yv[8] == -p - q && yv[7] == p && yv[6] == q && yv[5] == -p - q && yv[4] == p && yv[3] == q;
  }

  lemma ThirdEquations(a: real, b: real, p: real, q: real)
    requires p == -a - b - 2.4106088817 * p - 7.9375347704 * q
    requires -p - q == b + 2.4106088817 * (p + q) - 7.9375347704 * p
    ensures PowerStopped(a, b, p, q)
  {
    assert b == 4.5269258887 * p - 3.4106088817 * q && a == -7.9375347704 * p - 4.5269258887 * q;
    var norm := ThirdPower(p, q);
    assert 47.5648 * norm <= ThirdPower(a, b) <= 47.5649 * norm by { ThirdPowerNonNegative(p, q); }
    assert ThirdPower(a * GAIN, b * GAIN) == GAIN * GAIN * ThirdPower(a, b);
  }

  lemma SquareOf(r: real)
    ensures r * r >= 0.0
  {
  }

  lemma ThirdPowerNonNegative(p: real, q: real)
    ensures ThirdPower(p, q) >= 0.0
  {
    SquareOf(p);
    SquareOf(q);
    SquareOf(p + q);
    assert (p + q) * (p + q) == p * p + 2.0 * (p * q) + q * q;
  }
}
