/** The half-band decimator kernels.

    A half-band filter has zero taps at every second position except the centre, so
    the scalar kernel skips them. The vector kernel keeps all of them and works on
    four lanes. Both are shown to compute the full filter. */
module Halfband {
  import opened Fixed16
  import RealMath

  // Quantised taps, padded with one zero for the vector kernel.
  datatype Filter = Filter(ntaps: nat, taps: seq<int16>)

  function Centre(f: Filter): int { (f.ntaps - 1) / 2 }

  predicate HalfbandShape(f: Filter) {
    && f.ntaps % 4 == 3
    && |f.taps| == f.ntaps + 1
    && f.taps[f.ntaps] == 0
    && forall j :: 0 <= j < f.ntaps && j % 2 == 1 && j != Centre(f) ==> f.taps[j] == 0
  }

  function Abs(v: int): nat { if v < 0 then -v else v }

  // Sum of the magnitudes of the first n taps.
  function AbsSum(taps: seq<int16>, n: nat): nat
    requires n <= |taps|
  {
    if n == 0 then 0 else AbsSum(taps, n - 1) + Abs(taps[n - 1])
  }

  // ---------- the full filter ----------

  // The product of two 16-bit values, widened.
  function Mul(a: int16, b: int16): int { a * b }

  function Term(taps: seq<int16>, x: seq<Cs16>, quad: bool, at: nat, j: nat): int
    requires j < |taps| && at + j < |x|
  {
    Mul(Part(x[at + j], quad), taps[j])
  }

  // The dot product of the first n taps with the samples from `at` on.
  function Dot(taps: seq<int16>, x: seq<Cs16>, quad: bool, at: nat, n: nat): int
    requires n <= |taps| && at + n <= |x|
  {
    if n == 0 then 0 else Dot(taps, x, quad, at, n - 1) + Term(taps, x, quad, at, n - 1)
  }

  // C's arithmetic shift rounds towards minus infinity.
  function Shr15(v: int): int { v / 32768 }

  function FirAt(f: Filter, x: seq<Cs16>, at: nat): Cs16
    requires f.ntaps <= |f.taps| && at + f.ntaps <= |x|
  {
    Cs16(ToInt16(Shr15(Dot(f.taps, x, false, at, f.ntaps))), ToInt16(Shr15(Dot(f.taps, x, true, at, f.ntaps))))
  }

  // Enough samples for `count` filter positions.
  predicate Covers(f: Filter, x: seq<Cs16>, count: nat) {
    count % 2 == 0 && (count > 0 ==> count + f.ntaps - 2 <= |x|)
  }

  // Every second output of the full filter.
  function BlockOut(f: Filter, x: seq<Cs16>, count: nat): (r: seq<Cs16>)
    requires HalfbandShape(f) && Covers(f, x, count)
    ensures |r| == count / 2
  {
    seq(count / 2, (k: nat) requires k < count / 2 => FirAt(f, x, 2 * k))
  }

  // ---------- magnitudes ----------

  lemma TermBound(taps: seq<int16>, x: seq<Cs16>, quad: bool, at: nat, j: nat)
    requires j < |taps| && at + j < |x|
    ensures Abs(Term(taps, x, quad, at, j)) <= 32768 * Abs(taps[j])
  {
    ProductBound(taps[j], Part(x[at + j], quad));
  }

  lemma ProductBound(t: int16, v: int16)
    ensures Abs(Mul(v, t)) <= 32768 * Abs(t)
  {
    RealMath.IntMulLessEq(v, 32768, Abs(t));
    RealMath.IntMulLessEq(-32768, v, Abs(t));
    assert t < 0 ==> v * t == -(v * Abs(t));
  }

  lemma {:induction false} AbsSumMonotone(taps: seq<int16>, m: nat, n: nat)
    requires m <= n <= |taps|
    ensures AbsSum(taps, m) <= AbsSum(taps, n)
    decreases n
  {
    if m < n { AbsSumMonotone(taps, m, n - 1); }
  }

  lemma {:induction false} DotBound(taps: seq<int16>, x: seq<Cs16>, quad: bool, at: nat, n: nat)
    requires n <= |taps| && at + n <= |x|
    ensures Abs(Dot(taps, x, quad, at, n)) <= 32768 * AbsSum(taps, n)
  {
    hide Term;
    if n > 0 {
      DotBound(taps, x, quad, at, n - 1);
      TermBound(taps, x, quad, at, n - 1);
    }
  }

  // The sample that drives a product with tap t as high, or as low, as it goes.
  function ExtremeSample(t: int16, high: bool): int16 {
    if (t >= 0) == high then 32767 else -32768
  }

  lemma ProductBetween(t: int16, v: int16)
    ensures Mul(ExtremeSample(t, false), t) <= Mul(v, t) <= Mul(ExtremeSample(t, true), t)
    ensures Mul(ExtremeSample(t, false), t) <= 0 <= Mul(ExtremeSample(t, true), t)
  {
    RealMath.IntMulLessEq(-32768, v, Abs(t));
    RealMath.IntMulLessEq(v, 32767, Abs(t));
    assert t < 0 ==> v * t == -(v * Abs(t));
  }

  // ---------- the scalar kernel ----------

  function EvenDot(taps: seq<int16>, x: seq<Cs16>, quad: bool, at: nat, n: nat): int
    requires n <= |taps| && at + n <= |x|
  {
    if n == 0 then 0
    else EvenDot(taps, x, quad, at, n - 1) + if n % 2 == 1 then Term(taps, x, quad, at, n - 1) else 0
  }

  function EvenAbs(taps: seq<int16>, n: nat): nat
    requires n <= |taps|
  {
    if n == 0 then 0 else EvenAbs(taps, n - 1) + if n % 2 == 1 then Abs(taps[n - 1]) else 0
  }

  lemma {:induction false} EvenDotBound(taps: seq<int16>, x: seq<Cs16>, quad: bool, at: nat, n: nat)
    requires n <= |taps| && at + n <= |x|
    ensures Abs(EvenDot(taps, x, quad, at, n)) <= 32768 * EvenAbs(taps, n)
  {
    hide Term;
    if n > 0 {
      EvenDotBound(taps, x, quad, at, n - 1);
      TermBound(taps, x, quad, at, n - 1);
    }
  }

  lemma {:induction false} EvenAbsPlusCentre(taps: seq<int16>, c: nat, n: nat)
    requires n <= |taps| && c < |taps| && c % 2 == 1
    ensures EvenAbs(taps, n) + (if c < n then Abs(taps[c]) else 0) <= AbsSum(taps, n)
  {
    if n > 0 { EvenAbsPlusCentre(taps, c, n - 1); }
  }

  // No partial sum of the scalar kernel leaves the 32-bit range.
  lemma ScalarSumFits(f: Filter, x: seq<Cs16>, quad: bool, at: nat, n: nat)
    requires HalfbandShape(f) && n <= f.ntaps && at + f.ntaps <= |x|
    requires AbsSum(f.taps, f.ntaps) <= 0xFFFF
    ensures InInt32(Term(f.taps, x, quad, at, Centre(f)) + EvenDot(f.taps, x, quad, at, n))
  {
    hide Term, EvenDot, EvenAbs, AbsSum, HalfbandShape, Centre;
    ShapeFacts(f);
    var c := Centre(f);
    TermBound(f.taps, x, quad, at, c);
    EvenDotBound(f.taps, x, quad, at, n);
    EvenAbsMonotone(f.taps, n, f.ntaps);
    EvenAbsPlusCentre(f.taps, c, f.ntaps);
  }

  lemma {:induction false} EvenAbsMonotone(taps: seq<int16>, m: nat, n: nat)
    requires m <= n <= |taps|
    ensures EvenAbs(taps, m) <= EvenAbs(taps, n)
    decreases n
  {
    if m < n { EvenAbsMonotone(taps, m, n - 1); }
  }

  lemma OddTapIsZero(f: Filter, j: nat)
    requires HalfbandShape(f) && j < f.ntaps && j % 2 == 1 && j != Centre(f)
    ensures |f.taps| == f.ntaps + 1 && f.taps[j] == 0
  {
  }

  // Skipping the zero taps loses nothing.
  lemma {:induction false} EvenPlusCentre(f: Filter, x: seq<Cs16>, quad: bool, at: nat, n: nat)
    requires HalfbandShape(f) && n <= f.ntaps && at + f.ntaps <= |x|
    ensures Dot(f.taps, x, quad, at, n)
            == EvenDot(f.taps, x, quad, at, n) + if Centre(f) < n then Term(f.taps, x, quad, at, Centre(f)) else 0
  {
    hide Term, HalfbandShape, Centre;
    ShapeFacts(f);
    if n > 0 {
      EvenPlusCentre(f, x, quad, at, n - 1);
      if n % 2 == 0 && n - 1 != Centre(f) {
        OddTapIsZero(f, n - 1);
        ZeroTerm(f.taps, x, quad, at, n - 1);
      }
    }
  }

  lemma ZeroTerm(taps: seq<int16>, x: seq<Cs16>, quad: bool, at: nat, j: nat)
    requires j < |taps| && at + j < |x| && taps[j] == 0
    ensures Term(taps, x, quad, at, j) == 0
  {
  }

  lemma ShapeFacts(f: Filter)
    requires HalfbandShape(f)
    ensures f.ntaps % 4 == 3 && |f.taps| == f.ntaps + 1 && 0 < Centre(f) < f.ntaps && Centre(f) % 2 == 1
  {
  }

  lemma EvenStart(f: Filter, x: seq<Cs16>, quad: bool, at: nat)
    requires HalfbandShape(f) && at + f.ntaps <= |x|
    ensures Mul(f.taps[Centre(f)], Part(x[at + Centre(f)], quad))
            == Term(f.taps, x, quad, at, Centre(f)) + EvenDot(f.taps, x, quad, at, 0)
  {
  }

  // One output of the scalar kernel: the inner loop, two taps at a time.
  method ScalarOutput(f: Filter, x: seq<Cs16>, at: nat) returns (r: Cs16)
    requires HalfbandShape(f) && at + f.ntaps <= |x|
    requires AbsSum(f.taps, f.ntaps) <= 0xFFFF
    ensures r == FirAt(f, x, at)
  {
    hide Dot, AbsSum, EvenDot, HalfbandShape, Centre, Term, ToInt16, Shr15, InInt32, Mul;
    ShapeFacts(f);
    var c := Centre(f);
    var sumI := Mul(f.taps[c], x[at + c].i);
    var sumQ := Mul(f.taps[c], x[at + c].q);
    ghost var ci, cq := Term(f.taps, x, false, at, c), Term(f.taps, x, true, at, c);
    EvenStart(f, x, false, at);
    EvenStart(f, x, true, at);
    var j := 0;
    ghost var k := 0;
    while j < f.ntaps
      invariant 0 <= j == 2 * k && j <= f.ntaps + 1
      invariant sumI == ci + EvenDot(f.taps, x, false, at, if j <= f.ntaps then j else f.ntaps)
      invariant sumQ == cq + EvenDot(f.taps, x, true, at, if j <= f.ntaps then j else f.ntaps)
    {
      ghost var n := if j + 2 <= f.ntaps then j + 2 else f.ntaps;
      EvenStep(f.taps, x, false, at, j, k, n);
      EvenStep(f.taps, x, true, at, j, k, n);
      sumI := sumI + Mul(x[at + j].i, f.taps[j]);
      sumQ := sumQ + Mul(x[at + j].q, f.taps[j]);
      ScalarSumFits(f, x, false, at, n);
      ScalarSumFits(f, x, true, at, n);
      assert InInt32(sumI) && InInt32(sumQ);
      j, k := j + 2, k + 1;
    }
    EvenPlusCentre(f, x, false, at, f.ntaps);
    EvenPlusCentre(f, x, true, at, f.ntaps);
    r := Cs16(ToInt16(Shr15(sumI)), ToInt16(Shr15(sumQ)));
  }

  lemma EvenStep(taps: seq<int16>, x: seq<Cs16>, quad: bool, at: nat, j: nat, k: int, n: nat)
    requires j == 2 * k && j < n <= j + 2 && n <= |taps| && at + n <= |x|
    ensures EvenDot(taps, x, quad, at, n) == EvenDot(taps, x, quad, at, j) + Mul(Part(x[at + j], quad), taps[j])
  {
    hide Mul;
    assert EvenDot(taps, x, quad, at, j + 1) == EvenDot(taps, x, quad, at, j) + Term(taps, x, quad, at, j);
  }

  // out with samples from `at` on replaced
  function Placed(out: seq<Cs16>, at: nat, block: seq<Cs16>): (r: seq<Cs16>)
    requires at + |block| <= |out|
    ensures |r| == |out|
  {
    out[..at] + block + out[at + |block|..]
  }

  // Stores the next outputs of a block that starts at `from`.
  method StoreNext(out: array<Cs16>, from: nat, done: nat, block: seq<Cs16>)
    requires from + done + |block| <= out.Length
    modifies out
    ensures out[from..from + done + |block|] == old(out[from..from + done]) + block
    ensures out[..from] == old(out[..from])
    ensures out[from + done + |block|..] == old(out[from + done + |block|..])
  {
    forall k | 0 <= k < |block| { out[from + done + k] := block[k]; }
  }

  lemma Assembled(out0: seq<Cs16>, out: seq<Cs16>, at: nat, block: seq<Cs16>)
    requires |out| == |out0| && at + |block| <= |out|
    requires out[..at] == out0[..at] && out[at..at + |block|] == block && out[at + |block|..] == out0[at + |block|..]
    ensures out == Placed(out0, at, block)
  {
    assert out == out[..at] + out[at..at + |block|] + out[at + |block|..];
  }

  lemma DropMore(a: seq<Cs16>, b: seq<Cs16>, m: nat, n: nat)
    requires m <= n <= |a| == |b| && a[m..] == b[m..]
    ensures a[n..] == b[n..]
  {
    assert a[n..] == a[m..][n - m..];
    assert b[n..] == b[m..][n - m..];
  }

  /** The scalar kernel writes every second output of the full filter. */
  method BlockScalar(f: Filter, x: seq<Cs16>, count: nat, out: array<Cs16>, at: nat) returns (n: nat)
    requires HalfbandShape(f) && Covers(f, x, count) && at + count / 2 <= out.Length
    requires AbsSum(f.taps, f.ntaps) <= 0xFFFF
    modifies out
    ensures n == count / 2 && out[..] == Placed(old(out[..]), at, BlockOut(f, x, count))
  {
    hide FirAt, AbsSum, HalfbandShape, Placed;
    ShapeFacts(f);
    ghost var spec, out0 := BlockOut(f, x, count), out[..];
    var i := 0;
    n := 0;
    while i < count
      invariant i == 2 * n && i <= count && n <= count / 2
      invariant out[at..at + n] == spec[..n]
      invariant out[..at] == out0[..at] && out[at + n..] == out0[at + n..]
    {
      var y := ScalarOutput(f, x, i);
      assert spec[..n + 1] == spec[..n] + [y];
      DropMore(out[..], out0, at + n, at + n + 1);
      StoreNext(out, at, n, [y]);
      i, n := i + 2, n + 1;
    }
    Assembled(out0, out[..], at, spec);
  }
}
