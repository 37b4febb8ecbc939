/** When the vector kernel agrees with the scalar one: exactly when neither pair of lanes
    that is added with saturation can leave 32 bits. */
module HalfbandNeonExact {
  import opened Fixed16
  import opened Halfband
  import opened HalfbandNeon
  import RealMath

  // Highest or lowest value of lane m over all inputs.
  function LaneExtreme(taps: seq<int16>, m: nat, n: nat, high: bool): int
    requires m < 4 && 4 * n <= |taps|
  {
    if n == 0 then 0
    else
      LaneExtreme(taps, m, n - 1, high) + Mul(ExtremeSample(taps[4 * (n - 1) + m], high), taps[4 * (n - 1) + m])
  }

  function PairExtreme(f: Filter, first: nat, high: bool): int
    requires HalfbandShape(f) && first <= 2
  {
    LaneExtreme(f.taps, first, Steps(f), high) + LaneExtreme(f.taps, first + 1, Steps(f), high)
  }

  // Saturation gives the nearest value that 32 bits hold.
  lemma SaturatesToNearest(v: int, w: int)
    requires InInt32(w)
    ensures InInt32(Sat32(v)) && Abs(Sat32(v) - v) <= Abs(w - v)
  {
  }

  // Twice the value fits the signed 32-bit range.
  predicate DoubleFits(v: int) { -0x4000_0000 <= v < 0x4000_0000 }

  predicate PairFits(f: Filter, first: nat)
    requires HalfbandShape(f) && first <= 2
  {
    DoubleFits(PairExtreme(f, first, true)) && DoubleFits(PairExtreme(f, first, false))
  }

  predicate PairsFit(f: Filter)
    requires HalfbandShape(f)
  {
    PairFits(f, 0) && PairFits(f, 2)
  }

  // ---------- if the pairs fit, nothing saturates ----------

  lemma {:induction false} LaneGrows(taps: seq<int16>, m: nat, k: nat, n: nat)
    requires m < 4 && k <= n && 4 * n <= |taps|
    ensures LaneExtreme(taps, m, n, false) <= LaneExtreme(taps, m, k, false) <= 0
    ensures 0 <= LaneExtreme(taps, m, k, true) <= LaneExtreme(taps, m, n, true)
    decreases n
  {
    hide Mul, ExtremeSample;
    if n > 0 { ProductBetween(taps[4 * (n - 1) + m], 0); }
    if k < n {
      LaneGrows(taps, m, k, n - 1);
    } else if n > 0 {
      LaneGrows(taps, m, n - 1, n - 1);
    }
  }

  // A lane whose extremes fit accumulates exactly twice its dot product.
  lemma {:induction false} LaneExact(taps: seq<int16>, x: seq<Cs16>, quad: bool, at: nat, m: nat, n: nat)
    requires m < 4 && 4 * n <= |taps| && at + 4 * n <= |x|
    requires DoubleFits(LaneExtreme(taps, m, n, true)) && DoubleFits(LaneExtreme(taps, m, n, false))
    ensures LaneAcc(taps, x, quad, at, m, n) == 2 * LaneDot(taps, x, quad, at, m, n)
    ensures LaneExtreme(taps, m, n, false) <= LaneDot(taps, x, quad, at, m, n) <= LaneExtreme(taps, m, n, true)
  {
    hide Mul, ExtremeSample;
    if n > 0 {
      LaneGrows(taps, m, n - 1, n);
      LaneExact(taps, x, quad, at, m, n - 1);
      ProductBetween(taps[4 * (n - 1) + m], Part(x[at + 4 * (n - 1) + m], quad));
      ProductBetween(taps[4 * (n - 1) + m], 0);
      IndexSum(at, n, m);
    }
  }

  lemma IndexSum(at: nat, n: nat, m: nat)
    requires n > 0
    ensures at + 4 * (n - 1) + m == at + (4 * (n - 1) + m)
  {
  }

  lemma PairExact(f: Filter, x: seq<Cs16>, quad: bool, at: nat, first: nat)
    requires HalfbandShape(f) && at + f.ntaps + 1 <= |x| && first <= 2 && PairFits(f, first)
    ensures 4 * Steps(f) == f.ntaps + 1 == |f.taps|
    ensures Sat32(LaneAcc(f.taps, x, quad, at, first, Steps(f)) + LaneAcc(f.taps, x, quad, at, first + 1, Steps(f)))
            == 2 * (LaneDot(f.taps, x, quad, at, first, Steps(f)) + LaneDot(f.taps, x, quad, at, first + 1, Steps(f)))
  {
    hide LaneAcc, LaneDot, LaneExtreme, HalfbandShape;
    ShapeFacts(f);
    LaneGrows(f.taps, first, Steps(f), Steps(f));
    LaneGrows(f.taps, first + 1, Steps(f), Steps(f));
    LaneExact(f.taps, x, quad, at, first, Steps(f));
    LaneExact(f.taps, x, quad, at, first + 1, Steps(f));
  }

  lemma PartExact(f: Filter, x: seq<Cs16>, quad: bool, at: nat)
    requires HalfbandShape(f) && at + f.ntaps + 1 <= |x| && PairsFit(f)
    ensures NeonPart(f, x, quad, at) == ToInt16(Shr15(Dot(f.taps, x, quad, at, f.ntaps)))
  {
    hide LaneAcc, LaneDot, HalfbandShape, PairFits, Dot, ToInt16, Sat32;
    ShapeFacts(f);
    PairExact(f, x, quad, at, 0);
    PairExact(f, x, quad, at, 2);
    LanesMakeDot(f.taps, x, quad, at, Steps(f));
    PaddedDot(f, x, quad, at);
  }

  lemma BlocksAgree(f: Filter, x: seq<Cs16>, count: nat)
    requires HalfbandShape(f) && Covers(f, x, count) && PairsFit(f)
    ensures NeonOut(f, x, count) == BlockOut(f, x, count)
  {
    hide NeonPart, HalfbandShape, PairsFit, Dot;
    forall k: nat | k < count / 2 ensures NeonOut(f, x, count)[k] == BlockOut(f, x, count)[k] {
      NeonOutAt(f, x, count, k);
      if InVectorLoop(count, k) {
        PartExact(f, x, false, 2 * k);
        PartExact(f, x, true, 2 * k);
      }
    }
  }

  // ---------- if a pair does not fit, some input shows it ----------

  // The extreme input on two lanes, silence on the others.
  function PairInput(f: Filter, first: nat, high: bool): (r: seq<Cs16>)
    requires HalfbandShape(f)
    ensures |r| == f.ntaps + 6
  {
    seq(f.ntaps + 6, k requires 0 <= k < f.ntaps + 6 =>
      if k <= f.ntaps && first <= k % 4 <= first + 1 then
        Cs16(ExtremeSample(f.taps[k], high), ExtremeSample(f.taps[k], high))
      else Cs16(0, 0))
  }

  // Once saturated, a sum that only moves outwards stays saturated.
  lemma SatOutwards(a: int, p: int)
    requires (a >= 0 && p >= 0) || (a <= 0 && p <= 0)
    ensures Sat32(Sat32(2 * a) + Sat32(2 * p)) == Sat32(2 * (a + p))
  {
  }

  lemma ExtremeSign(t: int16, high: bool)
    ensures high ==> Mul(ExtremeSample(t, high), t) >= 0
    ensures !high ==> Mul(ExtremeSample(t, high), t) <= 0
  {
    ProductBetween(t, 0);
  }

  lemma ExtremeAt(f: Filter, first: nat, high: bool, m: nat, n: nat)
    requires HalfbandShape(f) && first <= m <= first + 1 <= 3 && 0 < n && 4 * n <= f.ntaps + 1
    ensures |f.taps| == f.ntaps + 1
    ensures PairInput(f, first, high)[4 * (n - 1) + m].i == ExtremeSample(f.taps[4 * (n - 1) + m], high)
  {
    hide ExtremeSample, HalfbandShape;
    ShapeFacts(f);
    LaneIndex(n, m);
  }

  lemma {:induction false} ExtremeAcc(f: Filter, first: nat, high: bool, m: nat, n: nat)
    requires HalfbandShape(f) && first <= m <= first + 1 <= 3 && 4 * n <= f.ntaps + 1
    ensures LaneAcc(f.taps, PairInput(f, first, high), false, 0, m, n) == Sat32(2 * LaneExtreme(f.taps, m, n, high))
  {
    hide Mul, ExtremeSample, HalfbandShape, Sat32, PairInput;
    ShapeFacts(f);
    if n == 0 {
      SatZero();
    } else {
      ExtremeAcc(f, first, high, m, n - 1);
      LaneGrows(f.taps, m, n - 1, n - 1);
      ExtremeAt(f, first, high, m, n);
      ExtremeSign(f.taps[4 * (n - 1) + m], high);
      SatOutwards(LaneExtreme(f.taps, m, n - 1, high),
                  Mul(ExtremeSample(f.taps[4 * (n - 1) + m], high), f.taps[4 * (n - 1) + m]));
    }
  }

  lemma SatZero()
    ensures Sat32(0) == 0
  {
  }

  lemma {:induction false} ExtremeDot(f: Filter, first: nat, high: bool, m: nat, n: nat)
    requires HalfbandShape(f) && first <= m <= first + 1 <= 3 && 4 * n <= f.ntaps + 1
    ensures LaneDot(f.taps, PairInput(f, first, high), false, 0, m, n) == LaneExtreme(f.taps, m, n, high)
  {
    hide Mul, ExtremeSample, HalfbandShape, PairInput;
    ShapeFacts(f);
    if n > 0 {
      ExtremeDot(f, first, high, m, n - 1);
      ExtremeAt(f, first, high, m, n);
    }
  }

  lemma LaneIndex(n: nat, m: nat)
    requires n > 0 && m < 4
    ensures (4 * (n - 1) + m) % 4 == m
  {
    assert (4 * (n - 1) + m) / 4 == n - 1;
  }

  lemma SilentAt(f: Filter, first: nat, high: bool, m: nat, n: nat)
    requires HalfbandShape(f) && m < 4 && !(first <= m <= first + 1) && 0 < n && 4 * n <= f.ntaps + 1
    ensures |f.taps| == f.ntaps + 1 && PairInput(f, first, high)[4 * (n - 1) + m].i == 0
    ensures Mul(0, f.taps[4 * (n - 1) + m]) == 0
  {
    hide ExtremeSample, HalfbandShape;
    ShapeFacts(f);
    LaneIndex(n, m);
  }

  lemma {:induction false} SilentLane(f: Filter, first: nat, high: bool, m: nat, n: nat)
    requires HalfbandShape(f) && m < 4 && !(first <= m <= first + 1) && 4 * n <= f.ntaps + 1
    ensures LaneAcc(f.taps, PairInput(f, first, high), false, 0, m, n) == 0
    ensures LaneDot(f.taps, PairInput(f, first, high), false, 0, m, n) == 0
  {
    hide Mul, HalfbandShape, PairInput;
    ShapeFacts(f);
    if n > 0 {
      SilentLane(f, first, high, m, n - 1);
      SilentAt(f, first, high, m, n);
    }
  }

  // What both kernels make of the extreme input.
  lemma PairDot(f: Filter, first: nat, high: bool)
    requires HalfbandShape(f) && (first == 0 || first == 2)
    ensures Dot(f.taps, PairInput(f, first, high), false, 0, f.ntaps) == PairExtreme(f, first, high)
  {
    hide LaneAcc, LaneDot, LaneExtreme, HalfbandShape, Dot, PairInput;
    ShapeFacts(f);
    var n := Steps(f);
    PaddedDot(f, PairInput(f, first, high), false, 0);
    LanesMakeDot(f.taps, PairInput(f, first, high), false, 0, n);
    ExtremeDot(f, first, high, first, n);
    ExtremeDot(f, first, high, first + 1, n);
    SilentLane(f, first, high, 2 - first, n);
    SilentLane(f, first, high, 3 - first, n);
    if first == 0 {
      assert PairExtreme(f, 0, high) == LaneExtreme(f.taps, 0, n, high) + LaneExtreme(f.taps, 1, n, high);
    } else {
      assert PairExtreme(f, 2, high) == LaneExtreme(f.taps, 2, n, high) + LaneExtreme(f.taps, 3, n, high);
    }
  }

  // The saturated sum of lanes m and m + 1.
  function PairAcc(f: Filter, x: seq<Cs16>, quad: bool, at: nat, m: nat): int
    requires HalfbandShape(f) && at + f.ntaps + 1 <= |x| && m <= 2
  {
    Sat32(LaneAcc(f.taps, x, quad, at, m, Steps(f)) + LaneAcc(f.taps, x, quad, at, m + 1, Steps(f)))
  }

  lemma NeonFromPairs(f: Filter, x: seq<Cs16>, quad: bool, at: nat)
    requires HalfbandShape(f) && at + f.ntaps + 1 <= |x|
    ensures NeonPart(f, x, quad, at) == Addhn1(PairAcc(f, x, quad, at, 0), PairAcc(f, x, quad, at, 2))
  {
    hide LaneAcc, HalfbandShape, Sat32, Addhn1;
    ShapeFacts(f);
  }

  lemma ExtremePair(f: Filter, first: nat, high: bool)
    requires HalfbandShape(f) && (first == 0 || first == 2)
    ensures PairAcc(f, PairInput(f, first, high), false, 0, first) == Sat32(2 * PairExtreme(f, first, high))
  {
    hide LaneAcc, LaneExtreme, HalfbandShape, Sat32, PairInput;
    ShapeFacts(f);
    var n := Steps(f);
    ExtremeAcc(f, first, high, first, n);
    ExtremeAcc(f, first, high, first + 1, n);
    LaneGrows(f.taps, first, n, n);
    LaneGrows(f.taps, first + 1, n, n);
    SatOutwards(LaneExtreme(f.taps, first, n, high), LaneExtreme(f.taps, first + 1, n, high));
  }

  lemma SilentPair(f: Filter, first: nat, high: bool)
    requires HalfbandShape(f) && (first == 0 || first == 2)
    ensures PairAcc(f, PairInput(f, first, high), false, 0, 2 - first) == 0
  {
    hide LaneAcc, HalfbandShape, Sat32, PairInput;
    ShapeFacts(f);
    SatZero();
    SilentLane(f, first, high, 2 - first, Steps(f));
    SilentLane(f, first, high, 3 - first, Steps(f));
  }

  lemma PairOutput(f: Filter, first: nat, high: bool)
    requires HalfbandShape(f) && (first == 0 || first == 2)
    ensures NeonPart(f, PairInput(f, first, high), false, 0) == ToInt16(Sat32(2 * PairExtreme(f, first, high)) / 65536)
  {
    hide PairAcc, HalfbandShape, Sat32, PairInput, PairExtreme, NeonPart;
    ShapeFacts(f);
    NeonFromPairs(f, PairInput(f, first, high), false, 0);
    ExtremePair(f, first, high);
    SilentPair(f, first, high);
  }

  // Below the scalar kernel's own bound the saturated result can never be right by accident.
  lemma SaturationShows(v: int)
    requires -(32768 * 65535) <= v <= 32768 * 65535 && !DoubleFits(v)
    ensures ToInt16(Sat32(2 * v) / 65536) != ToInt16(Shr15(v))
  {
    if v >= 0x4000_0000 {
      assert Sat32(2 * v) / 65536 == 32767;
      assert 32768 <= Shr15(v) <= 65535;
    } else {
      assert Sat32(2 * v) / 65536 == -32768;
      assert -65535 <= Shr15(v) < -32768;
    }
  }

  lemma PairMisfitShows(f: Filter, first: nat, high: bool)
    requires HalfbandShape(f) && (first == 0 || first == 2) && AbsSum(f.taps, f.ntaps) <= 0xFFFF
    requires !DoubleFits(PairExtreme(f, first, high))
    ensures Covers(f, PairInput(f, first, high), 8)
    ensures NeonOut(f, PairInput(f, first, high), 8) != BlockOut(f, PairInput(f, first, high), 8)
  {
    var x := PairInput(f, first, high);
    hide HalfbandShape, Dot, ToInt16, PairInput, PairExtreme, DoubleFits, AbsSum, NeonPart, Sat32;
    ShapeFacts(f);
    PairDot(f, first, high);
    PairOutput(f, first, high);
    DotBound(f.taps, x, false, 0, f.ntaps);
    SaturationShows(PairExtreme(f, first, high));
    NeonOutAt(f, x, 8, 0);
    assert NeonOut(f, x, 8)[0].i != BlockOut(f, x, 8)[0].i;
  }

  /** For every filter whose sums the scalar kernel can hold, the two kernels agree on all
      inputs exactly when both pairs of lanes fit. */
  lemma KernelsAgreeIff(f: Filter)
    requires HalfbandShape(f) && AbsSum(f.taps, f.ntaps) <= 0xFFFF
    ensures (forall x: seq<Cs16>, count: nat | Covers(f, x, count) :: NeonOut(f, x, count) == BlockOut(f, x, count))
            <==> PairsFit(f)
  {
    hide NeonOut, BlockOut, PairExtreme, DoubleFits, AbsSum, HalfbandShape, Covers;
    if PairsFit(f) {
      forall x: seq<Cs16>, count: nat | Covers(f, x, count) ensures NeonOut(f, x, count) == BlockOut(f, x, count) {
        BlocksAgree(f, x, count);
      }
    } else {
      var first := if !PairFits(f, 0) then 0 else 2;
      var high := !DoubleFits(PairExtreme(f, first, true));
      PairMisfitShows(f, first, high);
    }
  }

  // ---------- the usual sufficient condition ----------

  lemma {:induction false} ExtremesBelow(taps: seq<int16>, n: nat)
    requires 4 * n <= |taps|
    ensures LaneExtreme(taps, 0, n, true) + LaneExtreme(taps, 1, n, true) +
            LaneExtreme(taps, 2, n, true) + LaneExtreme(taps, 3, n, true) <= 32768 * AbsSum(taps, 4 * n)
    ensures LaneExtreme(taps, 0, n, false) + LaneExtreme(taps, 1, n, false) +
            LaneExtreme(taps, 2, n, false) + LaneExtreme(taps, 3, n, false) >= -32768 * AbsSum(taps, 4 * n)
  {
    hide Mul, ExtremeSample;
    if n > 0 {
      var j := 4 * (n - 1);
      ExtremesBelow(taps, n - 1);
      ExtremeProduct(taps[j]);
      ExtremeProduct(taps[j + 1]);
      ExtremeProduct(taps[j + 2]);
      ExtremeProduct(taps[j + 3]);
      assert AbsSum(taps, j + 2) == AbsSum(taps, j) + Abs(taps[j]) + Abs(taps[j + 1]);
      assert AbsSum(taps, j + 4) == AbsSum(taps, j + 2) + Abs(taps[j + 2]) + Abs(taps[j + 3]);
    }
  }

  lemma ExtremeProduct(t: int16)
    ensures Mul(ExtremeSample(t, true), t) <= 32768 * Abs(t) && Mul(ExtremeSample(t, false), t) >= -(32768 * Abs(t))
  {
  }

  /** Magnitudes summing to at most 32767, as in the default filter, are enough. */
  lemma TapBoundFits(f: Filter)
    requires HalfbandShape(f) && AbsSum(f.taps, f.ntaps) <= 32767
    ensures PairsFit(f)
  {
    hide HalfbandShape, LaneExtreme, AbsSum;
    ShapeFacts(f);
    var n := Steps(f);
    ExtremesBelow(f.taps, n);
    PaddedSum(f);
    LaneGrows(f.taps, 0, n, n);
    LaneGrows(f.taps, 1, n, n);
    LaneGrows(f.taps, 2, n, n);
    LaneGrows(f.taps, 3, n, n);
  }

  lemma PaddedSum(f: Filter)
    requires HalfbandShape(f)
    ensures AbsSum(f.taps, f.ntaps + 1) == AbsSum(f.taps, f.ntaps)
  {
  }
}
