/** The vector half-band kernel: four 32-bit lanes hold i and q of two outputs, and
    four accumulators take every fourth tap. Saturating instructions are modelled as
    such, and the kernel agrees with the scalar one exactly when none of the two pairs of
    lanes can saturate. */
module HalfbandNeon {
  import opened Fixed16
  import opened Halfband
  import RealMath

  datatype I32x4 = I32x4(a: int, b: int, c: int, d: int)
  // Two complex samples seen as four 16-bit lanes, and four complex samples.
  datatype C2 = C2(s0: Cs16, s1: Cs16)
  datatype C4 = C4(s0: Cs16, s1: Cs16, s2: Cs16, s3: Cs16)

  // ---------- the instructions ----------

  function Sat32(v: int): int {
    if v > 0x7FFF_FFFF then 0x7FFF_FFFF else if v < -0x8000_0000 then -0x8000_0000 else v
  }

  function LoadC4(x: seq<Cs16>, at: nat): C4
    requires at + 4 <= |x|
  {
    C4(x[at], x[at + 1], x[at + 2], x[at + 3])
  }

  function GetLow(v: C4): C2 { C2(v.s0, v.s1) }

  function GetHigh(v: C4): C2 { C2(v.s2, v.s3) }

  function Zip(u: C2, v: C2): (C2, C2) { (C2(u.s0, v.s0), C2(u.s1, v.s1)) }

  // One lane of the doubling multiply-accumulate.
  function Qdmlal1(acc: int, m: int16, t: int16): int { Sat32(acc + Sat32(2 * Mul(m, t))) }

  function QdmlalLane(acc: I32x4, m: C2, t: int16): I32x4 {
    I32x4(Qdmlal1(acc.a, m.s0.i, t), Qdmlal1(acc.b, m.s0.q, t), Qdmlal1(acc.c, m.s1.i, t), Qdmlal1(acc.d, m.s1.q, t))
  }

  function Qadd(u: I32x4, v: I32x4): I32x4 {
    I32x4(Sat32(u.a + v.a), Sat32(u.b + v.b), Sat32(u.c + v.c), Sat32(u.d + v.d))
  }

  // Adds without saturation and keeps bits 16 to 31.
  function Addhn1(u: int, v: int): int16 { ToInt16((u + v) / 65536) }

  function Addhn(u: I32x4, v: I32x4): C2 {
    C2(Cs16(Addhn1(u.a, v.a), Addhn1(u.b, v.b)), Cs16(Addhn1(u.c, v.c), Addhn1(u.d, v.d)))
  }

  // ---------- what a lane holds ----------

  // Every fourth term, starting from tap m.
  function LaneDot(taps: seq<int16>, x: seq<Cs16>, quad: bool, at: nat, m: nat, n: nat): int
    requires m < 4 && 4 * n <= |taps| && at + 4 * n <= |x|
  {
    if n == 0 then 0
    else LaneDot(taps, x, quad, at, m, n - 1) + Term(taps, x, quad, at, 4 * (n - 1) + m)
  }

  lemma {:induction false} LanesMakeDot(taps: seq<int16>, x: seq<Cs16>, quad: bool, at: nat, n: nat)
    requires 4 * n <= |taps| && at + 4 * n <= |x|
    ensures Dot(taps, x, quad, at, 4 * n)
            == LaneDot(taps, x, quad, at, 0, n) + LaneDot(taps, x, quad, at, 1, n) +
               LaneDot(taps, x, quad, at, 2, n) + LaneDot(taps, x, quad, at, 3, n)
  {
    hide Term;
    if n > 0 {
      LanesMakeDot(taps, x, quad, at, n - 1);
      DotFour(taps, x, quad, at, 4 * (n - 1));
    }
  }

  lemma DotFour(taps: seq<int16>, x: seq<Cs16>, quad: bool, at: nat, j: nat)
    requires j + 4 <= |taps| && at + j + 4 <= |x|
    ensures Dot(taps, x, quad, at, j + 4)
            == Dot(taps, x, quad, at, j) + Term(taps, x, quad, at, j) + Term(taps, x, quad, at, j + 1) +
               Term(taps, x, quad, at, j + 2) + Term(taps, x, quad, at, j + 3)
  {
    hide Term;
    assert Dot(taps, x, quad, at, j + 2)
           == Dot(taps, x, quad, at, j) + Term(taps, x, quad, at, j) + Term(taps, x, quad, at, j + 1);
  }

  lemma PaddedDot(f: Filter, x: seq<Cs16>, quad: bool, at: nat)
    requires HalfbandShape(f) && at + f.ntaps + 1 <= |x|
    ensures Dot(f.taps, x, quad, at, f.ntaps + 1) == Dot(f.taps, x, quad, at, f.ntaps)
  {
    hide Term, HalfbandShape;
    ShapeFacts(f);
    PadIsZero(f);
    ZeroTerm(f.taps, x, quad, at, f.ntaps);
  }

  lemma PadIsZero(f: Filter)
    requires HalfbandShape(f)
    ensures |f.taps| == f.ntaps + 1 && f.taps[f.ntaps] == 0
  {
  }

  // ---------- what the kernel computes ----------

  // Accumulator m after n steps, for the output at `at`.
  function LaneAcc(taps: seq<int16>, x: seq<Cs16>, quad: bool, at: nat, m: nat, n: nat): int
    requires m < 4 && 4 * n <= |taps| && at + 4 * n <= |x|
  {
    if n == 0 then 0
    else
      Qdmlal1(LaneAcc(taps, x, quad, at, m, n - 1), Part(x[at + 4 * (n - 1) + m], quad), taps[4 * (n - 1) + m])
  }

  function Steps(f: Filter): nat { (f.ntaps + 1) / 4 }

  function NeonPart(f: Filter, x: seq<Cs16>, quad: bool, at: nat): int16
    requires HalfbandShape(f) && at + f.ntaps + 1 <= |x|
  {
    var n := Steps(f);
    Addhn1(Sat32(LaneAcc(f.taps, x, quad, at, 0, n) + LaneAcc(f.taps, x, quad, at, 1, n)),
           Sat32(LaneAcc(f.taps, x, quad, at, 2, n) + LaneAcc(f.taps, x, quad, at, 3, n)))
  }

  function NeonFir(f: Filter, x: seq<Cs16>, at: nat): Cs16
    requires HalfbandShape(f) && at + f.ntaps + 1 <= |x|
  {
    Cs16(NeonPart(f, x, false, at), NeonPart(f, x, true, at))
  }

  // Output k comes from the vector loop when its group of four samples starts early enough.
  predicate InVectorLoop(count: nat, k: nat) { 4 * (k / 2) + 6 < count }

  function NeonOut(f: Filter, x: seq<Cs16>, count: nat): (r: seq<Cs16>)
    requires HalfbandShape(f) && Covers(f, x, count)
    ensures |r| == count / 2
  {
    seq(count / 2, (k: nat) requires k < count / 2 =>
      if InVectorLoop(count, k) then NeonFir(f, x, 2 * k) else FirAt(f, x, 2 * k))
  }

  // Accumulator m for the outputs at positions `at` and `at + 2`.
  ghost predicate LaneState(s: I32x4, f: Filter, x: seq<Cs16>, at: nat, m: nat, n: nat)
    requires m < 4 && 4 * n <= |f.taps| && at + 2 + 4 * n <= |x|
  {
    && s.a == LaneAcc(f.taps, x, false, at, m, n)
    && s.b == LaneAcc(f.taps, x, true, at, m, n)
    && s.c == LaneAcc(f.taps, x, false, at + 2, m, n)
    && s.d == LaneAcc(f.taps, x, true, at + 2, m, n)
  }

  lemma LaneStart(f: Filter, x: seq<Cs16>, at: nat, m: nat)
    requires m < 4 && at + 2 <= |x|
    ensures LaneState(I32x4(0, 0, 0, 0), f, x, at, m, 0)
  {
  }

  lemma VectorStep(s: I32x4, f: Filter, x: seq<Cs16>, at: nat, m: nat, n: nat)
    requires m < 4 && 4 * n + 4 <= |f.taps| && at + 2 + 4 * n + 4 <= |x| && LaneState(s, f, x, at, m, n)
    ensures LaneState(QdmlalLane(s, C2(x[at + 4 * n + m], x[at + 2 + 4 * n + m]), f.taps[4 * n + m]), f, x, at, m, n + 1)
  {
    hide Qdmlal1;
  }

  lemma VectorTotal(s0: I32x4, s1: I32x4, s2: I32x4, s3: I32x4, f: Filter, x: seq<Cs16>, at: nat)
    requires HalfbandShape(f) && at + f.ntaps + 3 <= |x|
    requires LaneState(s0, f, x, at, 0, Steps(f)) && LaneState(s1, f, x, at, 1, Steps(f))
    requires LaneState(s2, f, x, at, 2, Steps(f)) && LaneState(s3, f, x, at, 3, Steps(f))
    ensures Addhn(Qadd(s0, s1), Qadd(s2, s3)) == C2(NeonFir(f, x, at), NeonFir(f, x, at + 2))
  {
    hide LaneAcc, Addhn1, Sat32, HalfbandShape;
    ShapeFacts(f);
  }

  // Two outputs of the vector loop. Its loads end at sample at + ntaps + 4.
  method VectorOutputs(f: Filter, x: seq<Cs16>, at: nat) returns (r: C2)
    requires HalfbandShape(f) && at + f.ntaps + 5 <= |x|
    ensures r == C2(NeonFir(f, x, at), NeonFir(f, x, at + 2))
  {
    hide HalfbandShape, NeonFir, LaneState, QdmlalLane;
    ShapeFacts(f);
    var sum0, sum1, sum2, sum3 := I32x4(0, 0, 0, 0), I32x4(0, 0, 0, 0), I32x4(0, 0, 0, 0), I32x4(0, 0, 0, 0);
    LaneStart(f, x, at, 0);
    LaneStart(f, x, at, 1);
    LaneStart(f, x, at, 2);
    LaneStart(f, x, at, 3);
    var in01 := LoadC4(x, at);
    var j := 0;
    ghost var n := 0;
    while j < f.ntaps
      invariant j == 4 * n && j <= f.ntaps + 1
      invariant in01 == LoadC4(x, at + j)
      invariant LaneState(sum0, f, x, at, 0, n) && LaneState(sum1, f, x, at, 1, n)
      invariant LaneState(sum2, f, x, at, 2, n) && LaneState(sum3, f, x, at, 3, n)
    {
      var t := f.taps[j..j + 4];
      var in23 := LoadC4(x, at + j + 4);
      var in0, in1, in2 := GetLow(in01), GetHigh(in01), GetLow(in23);
      var zip01, zip12 := Zip(in0, in1), Zip(in1, in2);
      VectorStep(sum0, f, x, at, 0, n);
      VectorStep(sum1, f, x, at, 1, n);
      VectorStep(sum2, f, x, at, 2, n);
      VectorStep(sum3, f, x, at, 3, n);
      sum0 := QdmlalLane(sum0, zip01.0, t[0]);
      sum1 := QdmlalLane(sum1, zip01.1, t[1]);
      sum2 := QdmlalLane(sum2, zip12.0, t[2]);
      sum3 := QdmlalLane(sum3, zip12.1, t[3]);
      in01 := in23;
      j, n := j + 4, n + 1;
    }
    VectorTotal(sum0, sum1, sum2, sum3, f, x, at);
    r := Addhn(Qadd(sum0, sum1), Qadd(sum2, sum3));
  }

  lemma TailSumFits(f: Filter, x: seq<Cs16>, quad: bool, at: nat, n: nat)
    requires HalfbandShape(f) && n <= f.ntaps && at + f.ntaps <= |x| && AbsSum(f.taps, f.ntaps) <= 0xFFFF
    ensures InInt32(Dot(f.taps, x, quad, at, n))
  {
    hide Dot, AbsSum, HalfbandShape;
    ShapeFacts(f);
    DotBound(f.taps, x, quad, at, n);
    AbsSumMonotone(f.taps, n, f.ntaps);
  }

  // One output of the trailing loop, which keeps every tap.
  method TailOutput(f: Filter, x: seq<Cs16>, at: nat) returns (r: Cs16)
    requires HalfbandShape(f) && at + f.ntaps <= |x| && AbsSum(f.taps, f.ntaps) <= 0xFFFF
    ensures r == FirAt(f, x, at)
  {
    hide HalfbandShape, Mul, AbsSum, InInt32;
    ShapeFacts(f);
    var sumI, sumQ := 0, 0;
    for j := 0 to f.ntaps
      invariant sumI == Dot(f.taps, x, false, at, j) && sumQ == Dot(f.taps, x, true, at, j)
    {
      sumI := sumI + Mul(x[at + j].i, f.taps[j]);
      sumQ := sumQ + Mul(x[at + j].q, f.taps[j]);
      TailSumFits(f, x, false, at, j + 1);
      TailSumFits(f, x, true, at, j + 1);
      assert InInt32(sumI) && InInt32(sumQ);
    }
    r := Cs16(ToInt16(Shr15(sumI)), ToInt16(Shr15(sumQ)));
  }

  lemma NextTwo(f: Filter, x: seq<Cs16>, count: nat, n: nat)
    requires HalfbandShape(f) && Covers(f, x, count) && n % 2 == 0 && 2 * n + 6 < count
    ensures 2 * n + f.ntaps + 5 <= |x|
    ensures NeonOut(f, x, count)[..n + 2] == NeonOut(f, x, count)[..n] + [NeonFir(f, x, 2 * n), NeonFir(f, x, 2 * n + 2)]
  {
    hide NeonFir, HalfbandShape, NeonOut;
    ShapeFacts(f);
    NeonOutAt(f, x, count, n);
    NeonOutAt(f, x, count, n + 1);
  }

  lemma NextOne(f: Filter, x: seq<Cs16>, count: nat, n: nat)
    requires HalfbandShape(f) && Covers(f, x, count) && 2 * n < count && !InVectorLoop(count, n)
    ensures 2 * n + f.ntaps <= |x|
    ensures NeonOut(f, x, count)[..n + 1] == NeonOut(f, x, count)[..n] + [FirAt(f, x, 2 * n)]
  {
    hide FirAt, HalfbandShape, NeonOut;
    NeonOutAt(f, x, count, n);
  }

  // The vector loop: four samples in, two outputs out, while enough samples are left.
  method VectorLoop(f: Filter, x: seq<Cs16>, count: nat, out: array<Cs16>, at: nat) returns (n: nat)
    requires HalfbandShape(f) && Covers(f, x, count) && at + count / 2 <= out.Length
    modifies out
    ensures n <= count / 2 && n % 2 == 0 && 2 * n + 6 >= count
    ensures out[at..at + n] == NeonOut(f, x, count)[..n]
    ensures out[..at] == old(out[..at]) && out[at + n..] == old(out[at + n..])
  {
    hide NeonFir, HalfbandShape, NeonOut, Covers;
    ghost var spec, out0 := NeonOut(f, x, count), out[..];
    var i := 0;
    n := 0;
    while i + 6 < count
      invariant i == 2 * n && n % 2 == 0 && n <= count / 2
      invariant out[at..at + n] == spec[..n]
      invariant out[..at] == out0[..at] && out[at + n..] == out0[at + n..]
    {
      NextTwo(f, x, count, n);
      var iq := VectorOutputs(f, x, i);
      DropMore(out[..], out0, at + n, at + n + 2);
      StoreNext(out, at, n, [iq.s0, iq.s1]);
      i, n := i + 4, n + 2;
    }
  }

  /** The vector kernel: saturating arithmetic in the vector loop, exact sums in the tail.
      It needs no sample that the scalar kernel does not read. */
  method BlockNeon(f: Filter, x: seq<Cs16>, count: nat, out: array<Cs16>, at: nat) returns (n: nat)
    requires HalfbandShape(f) && Covers(f, x, count) && at + count / 2 <= out.Length
    requires AbsSum(f.taps, f.ntaps) <= 0xFFFF
    modifies out
    ensures n == count / 2 && out[..] == Placed(old(out[..]), at, NeonOut(f, x, count))
  {
    hide FirAt, HalfbandShape, NeonOut, Placed, AbsSum, Covers;
    ghost var spec, out0 := NeonOut(f, x, count), out[..];
    n := VectorLoop(f, x, count, out, at);
    EvenCount(f, x, count);
    var i := 2 * n;
    while i < count
      invariant i == 2 * n && n <= count / 2 && !InVectorLoop(count, n)
      invariant out[at..at + n] == spec[..n]
      invariant out[..at] == out0[..at] && out[at + n..] == out0[at + n..]
    {
      NextOne(f, x, count, n);
      var y := TailOutput(f, x, i);
      DropMore(out[..], out0, at + n, at + n + 1);
      StoreNext(out, at, n, [y]);
      i, n := i + 2, n + 1;
    }
    Assembled(out0, out[..], at, spec);
  }

  lemma EvenCount(f: Filter, x: seq<Cs16>, count: nat)
    requires Covers(f, x, count)
    ensures count % 2 == 0
  {
  }

  lemma NeonOutAt(f: Filter, x: seq<Cs16>, count: nat, k: nat)
    requires HalfbandShape(f) && Covers(f, x, count) && k < count / 2
    ensures InVectorLoop(count, k) ==> 2 * k + f.ntaps + 1 <= |x| && NeonOut(f, x, count)[k] == NeonFir(f, x, 2 * k)
    ensures !InVectorLoop(count, k) ==> 2 * k + f.ntaps <= |x| && NeonOut(f, x, count)[k] == FirAt(f, x, 2 * k)
  {
    hide NeonFir, FirAt, HalfbandShape;
    ShapeFacts(f);
  }
}
