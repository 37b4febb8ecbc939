/** Range and linearity of the half-band filter. */
module HalfbandRange {
  import opened Fixed16
  import opened Halfband
  import RealMath

  // Below the tap bound the final cast changes nothing.
  lemma OutputExact(f: Filter, x: seq<Cs16>, quad: bool, at: nat)
    requires f.ntaps <= |f.taps| && at + f.ntaps <= |x| && AbsSum(f.taps, f.ntaps) <= 32767
    ensures Part(FirAt(f, x, at), quad) == Shr15(Dot(f.taps, x, quad, at, f.ntaps))
  {
    hide Dot, AbsSum;
    DotBound(f.taps, x, quad, at, f.ntaps);
  }

  // ---------- impulses ----------

  // One sample is v, at position p, and all others are zero.
  ghost predicate Impulse(x: seq<Cs16>, p: nat, v: int16) {
    forall k :: 0 <= k < |x| ==> x[k] == if k == p then Cs16(v, v) else Cs16(0, 0)
  }

  lemma {:induction false} DotOfImpulse(taps: seq<int16>, x: seq<Cs16>, p: nat, v: int16, quad: bool, at: nat, n: nat)
    requires n <= |taps| && at + n <= |x| && Impulse(x, p, v)
    ensures Dot(taps, x, quad, at, n) == if at <= p < at + n then taps[p - at] * v else 0
  {
    if n > 0 {
      DotOfImpulse(taps, x, p, v, quad, at, n - 1);
      TermOfImpulse(taps, x, p, v, quad, at, n - 1);
      hide Impulse, Term;
    }
  }

  lemma TermOfImpulse(taps: seq<int16>, x: seq<Cs16>, p: nat, v: int16, quad: bool, at: nat, j: nat)
    requires j < |taps| && at + j < |x| && Impulse(x, p, v)
    ensures Term(taps, x, quad, at, j) == if at + j == p then taps[j] * v else 0
  {
    if at + j != p { NoSample(taps[j]); }
  }

  lemma NoSample(t: int16)
    ensures Mul(0, t) == 0
  {
  }

  /** The response to a single sample is the taps, every second one, scaled by 2^-15: output k
      sees the sample at position p through tap p - 2k. */
  lemma ImpulseResponse(f: Filter, x: seq<Cs16>, p: nat, v: int16, count: nat, k: nat, quad: bool)
    requires HalfbandShape(f) && Covers(f, x, count) && Impulse(x, p, v) && k < count / 2
    requires AbsSum(f.taps, f.ntaps) <= 32767
    ensures Part(BlockOut(f, x, count)[k], quad) == (if 2 * k <= p < 2 * k + f.ntaps then f.taps[p - 2 * k] * v else 0) / 32768
  {
    hide AbsSum, Dot, Impulse, FirAt, HalfbandShape;
    ShapeFacts(f);
    OutputExact(f, x, quad, 2 * k);
    DotOfImpulse(f.taps, x, p, v, quad, 2 * k, f.ntaps);
  }

  // ---------- near-linearity ----------

  ghost predicate IsSum(x: seq<Cs16>, y: seq<Cs16>, z: seq<Cs16>) {
    |x| == |y| == |z| &&
    forall k, quad :: 0 <= k < |x| ==> Part(z[k], quad) == Part(x[k], quad) + Part(y[k], quad)
  }

  lemma SumAt(x: seq<Cs16>, y: seq<Cs16>, z: seq<Cs16>, k: nat, quad: bool)
    requires IsSum(x, y, z) && k < |x|
    ensures |x| == |y| == |z| && Part(z[k], quad) == Part(x[k], quad) + Part(y[k], quad)
  {
  }

  lemma MulSum(a: int16, b: int16, c: int16, t: int16)
    requires c == a + b
    ensures Mul(c, t) == Mul(a, t) + Mul(b, t)
  {
  }

  lemma TermSum(taps: seq<int16>, x: seq<Cs16>, y: seq<Cs16>, z: seq<Cs16>, quad: bool, at: nat, j: nat)
    requires IsSum(x, y, z) && j < |taps| && at + j < |x|
    ensures Term(taps, z, quad, at, j) == Term(taps, x, quad, at, j) + Term(taps, y, quad, at, j)
  {
    hide IsSum;
    SumAt(x, y, z, at + j, quad);
    MulSum(Part(x[at + j], quad), Part(y[at + j], quad), Part(z[at + j], quad), taps[j]);
  }

  lemma {:induction false} DotSum(taps: seq<int16>, x: seq<Cs16>, y: seq<Cs16>, z: seq<Cs16>, quad: bool, at: nat, n: nat)
    requires IsSum(x, y, z) && n <= |taps| && at + n <= |x|
    ensures Dot(taps, z, quad, at, n) == Dot(taps, x, quad, at, n) + Dot(taps, y, quad, at, n)
  {
    hide Term, IsSum;
    assert |z| == |x| && |y| == |x| by { SumLengths(x, y, z); }
    if n > 0 {
      DotSum(taps, x, y, z, quad, at, n - 1);
      TermSum(taps, x, y, z, quad, at, n - 1);
    }
  }

  lemma SumLengths(x: seq<Cs16>, y: seq<Cs16>, z: seq<Cs16>)
    requires IsSum(x, y, z)
    ensures |x| == |y| == |z|
  {
  }

  /** Filtering a sum gives the sum of the filtered blocks, or one more, in every component. */
  lemma NearlyLinear(f: Filter, x: seq<Cs16>, y: seq<Cs16>, z: seq<Cs16>, count: nat, k: nat, quad: bool)
    requires HalfbandShape(f) && IsSum(x, y, z) && Covers(f, x, count) && k < count / 2
    requires AbsSum(f.taps, f.ntaps) <= 32767
    ensures |z| == |y| == |x|
    ensures var d := Part(BlockOut(f, z, count)[k], quad)
                     - Part(BlockOut(f, x, count)[k], quad) - Part(BlockOut(f, y, count)[k], quad);
            d == 0 || d == 1
  {
    hide AbsSum, Dot, IsSum, FirAt, HalfbandShape;
    ShapeFacts(f);
    SumLengths(x, y, z);
    OutputExact(f, x, quad, 2 * k);
    OutputExact(f, y, quad, 2 * k);
    OutputExact(f, z, quad, 2 * k);
    DotSum(f.taps, x, y, z, quad, 2 * k, f.ntaps);
  }

  // ---------- when the output can overflow ----------

  // The filter is overflow-free when no input whatever drives an output out of 16 bits.
  ghost predicate NeverOverflows(taps: seq<int16>) {
    forall x: seq<Cs16>, quad | |x| == |taps| :: -32768 <= Shr15(Dot(taps, x, quad, 0, |taps|)) <= 32767
  }

  // Largest value of the dot product over all inputs: full scale with matching signs.
  function Highest(taps: seq<int16>, n: nat): int
    requires n <= |taps|
  {
    if n == 0 then 0
    else Highest(taps, n - 1) + Mul(ExtremeSample(taps[n - 1], true), taps[n - 1])
  }

  function Lowest(taps: seq<int16>, n: nat): int
    requires n <= |taps|
  {
    if n == 0 then 0
    else Lowest(taps, n - 1) + Mul(ExtremeSample(taps[n - 1], false), taps[n - 1])
  }

  lemma {:induction false} DotBetween(taps: seq<int16>, x: seq<Cs16>, quad: bool, n: nat)
    requires n <= |taps| && n <= |x|
    ensures Lowest(taps, n) <= Dot(taps, x, quad, 0, n) <= Highest(taps, n)
  {
    hide Mul, ExtremeSample;
    if n > 0 {
      DotBetween(taps, x, quad, n - 1);
      ProductBetween(taps[n - 1], Part(x[n - 1], quad));
    }
  }

  // The input that reaches the extreme.
  function Extreme(taps: seq<int16>, high: bool): (r: seq<Cs16>)
    ensures |r| == |taps|
  {
    seq(|taps|, k requires 0 <= k < |taps| =>
      Cs16(ExtremeSample(taps[k], high), ExtremeSample(taps[k], high)))
  }

  lemma {:induction false} ExtremeReached(taps: seq<int16>, high: bool, quad: bool, n: nat)
    requires n <= |taps|
    ensures Dot(taps, Extreme(taps, high), quad, 0, n) == if high then Highest(taps, n) else Lowest(taps, n)
  {
    hide Mul, ExtremeSample;
    if n > 0 { ExtremeReached(taps, high, quad, n - 1); }
  }

  /** No input overflows exactly when the two extreme inputs do not. */
  lemma OverflowFreeIff(taps: seq<int16>)
    ensures NeverOverflows(taps) <==>
            Highest(taps, |taps|) < 0x4000_0000 && Lowest(taps, |taps|) >= -0x4000_0000
  {
    hide Dot, Highest, Lowest;
    ExtremeReached(taps, true, false, |taps|);
    ExtremeReached(taps, false, false, |taps|);
    if NeverOverflows(taps) {
      assert Shr15(Dot(taps, Extreme(taps, true), false, 0, |taps|)) <= 32767;
      assert Shr15(Dot(taps, Extreme(taps, false), false, 0, |taps|)) >= -32768;
    }
    if Highest(taps, |taps|) < 0x4000_0000 && Lowest(taps, |taps|) >= -0x4000_0000 {
      forall x: seq<Cs16>, quad | |x| == |taps|
        ensures -32768 <= Shr15(Dot(taps, x, quad, 0, |taps|)) <= 32767
      {
        DotBetween(taps, x, quad, |taps|);
      }
    }
  }

  // A padding zero changes neither extreme.
  lemma {:induction false} PaddedExtremes(taps: seq<int16>, n: nat)
    requires n <= |taps|
    ensures Highest(taps + [0], n) == Highest(taps, n) && Lowest(taps + [0], n) == Lowest(taps, n)
    ensures n == |taps| ==> Highest(taps + [0], n + 1) == Highest(taps, n) && Lowest(taps + [0], n + 1) == Lowest(taps, n)
  {
    if n > 0 {
      hide Mul, ExtremeSample;
      PaddedExtremes(taps, n - 1);
    }
    NoProduct();
  }

  lemma NoProduct()
    ensures Mul(ExtremeSample(0, true), 0) == 0 && Mul(ExtremeSample(0, false), 0) == 0
  {
  }

  // The usual sufficient condition.
  lemma {:induction false} ExtremesBelow(taps: seq<int16>, n: nat)
    requires n <= |taps|
    ensures -32768 * AbsSum(taps, n) <= Lowest(taps, n) && Highest(taps, n) <= 32768 * AbsSum(taps, n)
  {
    hide Mul, ExtremeSample;
    if n > 0 {
      ExtremesBelow(taps, n - 1);
      ProductBound(taps[n - 1], ExtremeSample(taps[n - 1], true));
      ProductBound(taps[n - 1], ExtremeSample(taps[n - 1], false));
    }
  }

  lemma TapBoundPreventsOverflow(taps: seq<int16>)
    requires AbsSum(taps, |taps|) <= 32767
    ensures NeverOverflows(taps)
  {
    hide Highest, Lowest, AbsSum;
    ExtremesBelow(taps, |taps|);
    OverflowFreeIff(taps);
  }
}
