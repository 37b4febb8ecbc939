/** What creation guarantees the kernels: for every accepted tap set with a positive centre
    the vector kernel cannot saturate, so both kernels agree. */
module CreatedFilter {
  import opened Fixed16
  import opened Halfband
  import opened HalfbandTaps
  import opened HalfbandNeon
  import opened HalfbandNeonExact
  import DspHistory
  import HalfbandRange
  import RealMath

  // Sums of magnitudes over every fourth tap, from tap m on.
  function LaneAbs(taps: seq<int16>, m: nat, n: nat): nat
    requires m < 4 && 4 * n <= |taps|
  {
    if n == 0 then 0 else LaneAbs(taps, m, n - 1) + Abs(taps[4 * (n - 1) + m])
  }

  function LaneSum(t: seq<real>, m: nat, n: nat): real
    requires m <= 2 && 4 * n <= |t| + 1
  {
    if n == 0 then 0.0 else LaneSum(t, m, n - 1) + AbsR(t[4 * (n - 1) + m])
  }

  // ---------- quantised lanes ----------

  lemma {:induction false} ExtremeBelow(taps: seq<int16>, m: nat, n: nat)
    requires m < 4 && 4 * n <= |taps|
    ensures LaneExtreme(taps, m, n, true) <= 32768 * LaneAbs(taps, m, n)
    ensures LaneExtreme(taps, m, n, false) >= -32768 * LaneAbs(taps, m, n)
  {
    hide Mul, ExtremeSample, Halfband.Abs;
    if n > 0 {
      ExtremeBelow(taps, m, n - 1);
      ExtremeProduct(taps[4 * (n - 1) + m]);
    }
  }

  lemma OddPosition(k: nat)
    ensures (4 * k + 1) % 2 == 1 && (4 * k + 1) % 4 == 1
    ensures (4 * k + 3) % 2 == 1 && (4 * k + 3) % 4 == 3
  {
    assert (4 * k + 1) / 2 == 2 * k;
    assert (4 * k + 1) / 4 == k;
    assert (4 * k + 3) / 2 == 2 * k + 1;
    assert (4 * k + 3) / 4 == k;
  }

  // An odd lane holds no tap but the centre.
  lemma {:induction false} OddLane(f: Filter, m: nat, n: nat)
    requires HalfbandShape(f) && (m == 1 || m == 3) && 4 * n <= |f.taps|
    ensures LaneAbs(f.taps, m, n) <= if Centre(f) < 4 * n && Centre(f) % 4 == m then Abs(f.taps[Centre(f)]) else 0
  {
    if n > 0 {
      OddLane(f, m, n - 1);
      OddPosition(n - 1);
    }
  }

  lemma PairBelow(f: Filter, first: nat)
    requires HalfbandShape(f) && (first == 0 || first == 2)
    requires LaneAbs(f.taps, first, Steps(f)) + Abs(f.taps[Centre(f)]) <= 32767
    ensures PairFits(f, first)
  {
    hide HalfbandShape, LaneExtreme, LaneAbs, Halfband.Abs;
    ShapeFacts(f);
    var n := Steps(f);
    ExtremeBelow(f.taps, first, n);
    ExtremeBelow(f.taps, first + 1, n);
    OddLane(f, first + 1, n);
    LaneGrows(f.taps, first, n, n);
    LaneGrows(f.taps, first + 1, n, n);
  }

  // ---------- the taps before quantising ----------

  // Rounding at most doubles a magnitude, because anything below one half becomes zero.
  lemma RoundedAtMostTwice(x: real)
    ensures Abs(Truncate(x + 0.5)) as real <= 2.0 * RealMath.Abs(x)
  {
  }

  lemma QuantisedAtMostTwice(tap: real, s: real)
    requires s > 0.0
    ensures Abs(Quantised(tap, s)) as real <= 2.0 * (AbsR(tap) * s)
  {
    hide Truncate, Halfband.Abs, RealMath.Abs;
    RoundedAtMostTwice(tap * s);
    ScaledAbs(tap, s);
  }

  lemma TwiceMore(x: nat, y: nat, a: real, b: real, s: real)
    requires x as real <= 2.0 * (a * s) && y as real <= 2.0 * (b * s)
    ensures (x + y) as real <= 2.0 * ((a + b) * s)
  {
    Distribute(a, b, s);
  }

  lemma {:induction false} LaneAtMostTwice(t: seq<real>, q: seq<int16>, s: real, m: nat, n: nat)
    requires s > 0.0 && (m == 0 || m == 2) && 4 * n <= |t| + 1 == |q|
    requires forall j :: 0 <= j < |t| ==> q[j] == Quantised(t[j], s)
    ensures LaneAbs(q, m, n) as real <= 2.0 * (LaneSum(t, m, n) * s)
  {
    hide Quantised, RealMath.Abs, Halfband.Abs, AbsR;
    if n == 0 {
      assert 0.0 * s == 0.0;
    } else {
      var j := 4 * (n - 1) + m;
      LaneAtMostTwice(t, q, s, m, n - 1);
      QuantisedAtMostTwice(t[j], s);
      TwiceMore(LaneAbs(q, m, n - 1), Abs(q[j]), LaneSum(t, m, n - 1), AbsR(t[j]), s);
    }
  }

  ghost predicate Symmetric(t: seq<real>) {
    forall j :: 0 <= j < |t| ==> t[j] == t[|t| - 1 - j]
  }

  // Lanes 0 and 2 mirror each other.
  lemma {:induction false} MirroredLanes(t: seq<real>, k: nat, n: nat)
    requires Symmetric(t) && |t| + 1 == 4 * n && k <= n
    ensures LaneSum(t, 2, n - k) + LaneSum(t, 0, k) == LaneSum(t, 2, n)
  {
    hide RealMath.Abs;
    if k > 0 {
      MirroredLanes(t, k - 1, n);
      MirroredTap(t, k, n);
    }
  }

  lemma MirroredTap(t: seq<real>, k: nat, n: nat)
    requires Symmetric(t) && |t| + 1 == 4 * n && 0 < k <= n
    ensures t[4 * (k - 1)] == t[4 * (n - k) + 2]
  {
    assert |t| - 1 - 4 * (k - 1) == 4 * (n - k) + 2;
  }

  // Lanes 0 and 2 and the centre are distinct taps.
  lemma {:induction false} LanesWithin(t: seq<real>, c: nat, n: nat)
    requires 0 < n && 4 * n <= |t| + 1 && c < |t| && c % 2 == 1
    ensures LaneSum(t, 0, n) + LaneSum(t, 2, n) + (if c < 4 * n - 1 then AbsR(t[c]) else 0.0) <= FullSum(t, 4 * n - 1)
  {
    hide RealMath.Abs;
    var j := 4 * (n - 1);
    NotNegative(t[j + 1]);
    assert FullSum(t, j + 2) == FullSum(t, j) + AbsR(t[j]) + AbsR(t[j + 1]);
    assert FullSum(t, j + 3) == FullSum(t, j + 2) + AbsR(t[j + 2]);
    if n > 1 {
      LanesWithin(t, c, n - 1);
      NotNegative(t[j - 1]);
    } else {
      assert FullSum(t, 0) == 0.0;
    }
  }

  // ---------- together ----------

  lemma RealBound(lane: nat, centre: nat, a: real, b: real, s: real, full: real)
    requires lane as real <= 2.0 * (a * s) && centre as real <= b * s + 0.5
    requires s > 0.0 && a + a + b <= full && full * s <= 32767.0
    ensures lane + centre <= 32767
  {
    RealMath.MulLessEq(a + a + b, full, s);
    assert (a + a + b) * s == a * s + a * s + b * s;
  }

  lemma EitherPairFits(t: seq<real>, f: Filter, s: real, first: nat)
    requires HalfbandShape(f) && Symmetric(t) && |t| == f.ntaps && s > 0.0 && FullSum(t, |t|) * s <= 32767.0
    requires forall j :: 0 <= j < |t| ==> f.taps[j] == Quantised(t[j], s)
    requires first == 0 || first == 2
    ensures PairFits(f, first)
  {
    hide HalfbandShape, Quantised, RealMath.Abs, Halfband.Abs, LaneAbs, LaneSum, FullSum, Symmetric, PairFits;
    ShapeFacts(f);
    var n, c := Steps(f), Centre(f);
    LaneAtMostTwice(t, f.taps, s, first, n);
    QuantisedMagnitude(t[c], s);
    BothLanes(t, n);
    LanesWithin(t, c, n);
    RealBound(LaneAbs(f.taps, first, n), Abs(f.taps[c]), LaneSum(t, 0, n), AbsR(t[c]), s, FullSum(t, |t|));
    PairBelow(f, first);
  }

  lemma BothLanes(t: seq<real>, n: nat)
    requires Symmetric(t) && |t| + 1 == 4 * n
    ensures LaneSum(t, 0, n) == LaneSum(t, 2, n)
  {
    MirroredLanes(t, n, n);
  }

  lemma TrimmedSymmetric(taps: seq<real>)
    requires ValidTaps(taps) && |taps| > 1
    ensures Symmetric(Trimmed(taps))
  {
    forall j | 0 <= j < |taps| ensures taps[j] == taps[|taps| - 1 - j] {
      if j > |taps| / 2 { assert taps[|taps| - 1 - j] == taps[|taps| - (|taps| - 1 - j) - 1]; }
    }
  }

  /** With a positive centre, and at most 65536 taps, the filter meets what both kernels need:
      neither the scalar sums nor the vector lanes can leave 32 bits. */
  lemma CreatedFits(taps: seq<real>, f: Filter)
    requires Convertible(taps) && taps[(|taps| - 1) / 2] > 0.0
    requires f.ntaps == |Trimmed(taps)| && f.taps == QuantisedTaps(taps) + [0]
    ensures HalfbandShape(f) && PairsFit(f)
    ensures f.ntaps <= 65536 ==> AbsSum(f.taps, f.ntaps) <= 0xFFFF
  {
    hide Convertible, ValidTaps, Quantised, Trimmed, ScaleSum, FullSum, RealMath.Abs, HalfbandShape, AbsSum, PairFits, Symmetric;
    ConvertibleFacts(taps);
    QuantisedShape(taps, f);
    CreatedMagnitudes(taps, f);
    ScaleSumIff(taps);
    TrimmedSymmetric(taps);
    TrimmedSum(taps);
    TapBelowSum(taps, |taps| / 2, |taps|);
    PositiveAbs(taps[|taps| / 2]);
    PositiveScale(FullSum(Trimmed(taps), f.ntaps), ScaleSum(taps));
    EitherPairFits(Trimmed(taps), f, 32767.0 / ScaleSum(taps), 0);
    EitherPairFits(Trimmed(taps), f, 32767.0 / ScaleSum(taps), 2);
  }

  lemma PositiveScale(part: real, sum: real)
    requires part <= sum && sum > 0.0
    ensures 32767.0 / sum > 0.0 && part * (32767.0 / sum) <= 32767.0
  {
    RealMath.MulLessEq(part, sum, 32767.0 / sum);
  }

  // ---------- negative centres ----------

  // A filter with no nonzero tap but the centre.
  ghost predicate OnlyCentre(f: Filter) {
    |f.taps| > f.ntaps && forall j :: 0 <= j < |f.taps| && j != Centre(f) ==> f.taps[j] == 0
  }

  lemma {:induction false} OnlyCentreSum(f: Filter, n: nat)
    requires OnlyCentre(f) && n <= f.ntaps && 0 <= Centre(f) < f.ntaps
    ensures AbsSum(f.taps, n) == if Centre(f) < n then Abs(f.taps[Centre(f)]) else 0
  {
    if n > 0 { OnlyCentreSum(f, n - 1); }
  }

  lemma {:induction false} EvenLaneEmpty(f: Filter, m: nat, n: nat)
    requires OnlyCentre(f) && (m == 0 || m == 2) && 4 * n <= |f.taps| && Centre(f) % 2 == 1
    ensures LaneAbs(f.taps, m, n) == 0
  {
    if n > 0 {
      EvenLaneEmpty(f, m, n - 1);
      EvenPosition(n - 1);
    }
  }

  lemma EvenPosition(k: nat)
    ensures (4 * k) % 2 == 0 && (4 * k + 2) % 2 == 0
  {
    assert 4 * k == 2 * (2 * k) && 4 * k + 2 == 2 * (2 * k + 1);
  }

  lemma DelayFits(f: Filter)
    requires HalfbandShape(f) && OnlyCentre(f) && Abs(f.taps[Centre(f)]) <= 32767
    ensures PairsFit(f) && AbsSum(f.taps, f.ntaps) <= 0xFFFF
  {
    hide HalfbandShape, OnlyCentre, LaneAbs, AbsSum, PairFits, Halfband.Abs;
    ShapeFacts(f);
    OnlyCentreSum(f, f.ntaps);
    EvenLaneEmpty(f, 0, Steps(f));
    EvenLaneEmpty(f, 2, Steps(f));
    PairBelow(f, 0);
    PairBelow(f, 2);
  }

  /** A negative scaling sum, if it can be converted at all, gives a delay, which fits. */
  lemma NegativeSumFits(taps: seq<real>, f: Filter)
    requires Convertible(taps) && ScaleSum(taps) < 0.0
    requires f.ntaps == |Trimmed(taps)| && f.taps == QuantisedTaps(taps) + [0]
    ensures HalfbandShape(f) && PairsFit(f) && AbsSum(f.taps, f.ntaps) <= 0xFFFF
  {
    hide Convertible, QuantisedTaps, Trimmed, ScaleSum, HalfbandShape, PairsFit, AbsSum;
    ConvertibleTrims(taps);
    QuantisedShape(taps, f);
    ShapeFacts(f);
    NegativeSumIff(taps);
    assert f.taps[Centre(f)] == 32767;
    DelayFits(f);
  }

  lemma ConvertibleTrims(taps: seq<real>)
    requires Convertible(taps)
    ensures ValidTaps(taps) && TrimAssertions(taps)
  {
  }

  const HEAVY_TAPS: seq<real> := [1.0, 0.0, 1.0, -2.0, 1.0, 0.0, 1.0]

  lemma HeavyQuantised()
    ensures Convertible(HEAVY_TAPS) && ScaleSum(HEAVY_TAPS) == 2.0
    ensures QuantisedTaps(HEAVY_TAPS) == [16384, 0, 16384, -32766, 16384, 0, 16384]
  {
    assert HalfSum(HEAVY_TAPS, 1) == 2.0;
    assert HalfSum(HEAVY_TAPS, 2) == 2.0;
    assert HalfSum(HEAVY_TAPS, 3) == 4.0;
    assert 32767.0 / ScaleSum(HEAVY_TAPS) == 16383.5;
  }

  lemma HeavyHighest()
    ensures HalfbandRange.Highest([16384, 0, 16384, -32766, 16384, 0, 16384], 7) > 0x7FFF_FFFF
  {
    var q: seq<int16> := [16384, 0, 16384, -32766, 16384, 0, 16384];
    assert HalfbandRange.Highest(q, 2) == 32767 * 16384;
    assert HalfbandRange.Highest(q, 4) == 32767 * 32768 + 32768 * 32766;
    assert HalfbandRange.Highest(q, 6) == 32767 * 49152 + 32768 * 32766;
  }

  /** A negative centre with a positive scaling sum can make the scalar kernel's sums leave
      32 bits. */
  lemma NegativeCentreSumsOverflow() returns (x: seq<Cs16>)
    ensures Convertible(HEAVY_TAPS) && |x| == |QuantisedTaps(HEAVY_TAPS)| == 7
    ensures !InInt32(Dot(QuantisedTaps(HEAVY_TAPS), x, false, 0, 7))
  {
    hide Convertible, QuantisedTaps, Dot, HalfbandRange.Highest;
    HeavyQuantised();
    HeavyHighest();
    x := HalfbandRange.Extreme(QuantisedTaps(HEAVY_TAPS), true);
    HalfbandRange.ExtremeReached(QuantisedTaps(HEAVY_TAPS), true, false, 7);
  }

  /** A decimator as the library builds it, from all taps whose conversion C defines. With a
      positive centre or a negative scaling sum it suits either kernel. */
  method CreateDecimator(taps: seq<real>, neon: bool) returns (d: DspHistory.Decimator)
    requires Convertible(taps)
    ensures fresh(d) && fresh(d.history) && d.Valid() && d.neon == neon
    ensures d.filter.ntaps == |Trimmed(taps)| && d.filter.taps == QuantisedTaps(taps) + [0]
    ensures d.Carried() == seq(d.filter.ntaps - 1, _ => Cs16(0, 0))
    ensures (taps[(|taps| - 1) / 2] > 0.0 && |taps| <= 65536) || ScaleSum(taps) < 0.0 ==> d.SumsFit() && d.Exact()
  {
    hide Convertible, QuantisedTaps, AbsSum, PairsFit, HalfbandShape, ScaleSum;
    var f := Create(taps);
    ConvertibleFacts(taps);
    if taps[(|taps| - 1) / 2] > 0.0 { CreatedFits(taps, f); }
    if ScaleSum(taps) < 0.0 { NegativeSumFits(taps, f); }
    d := new DspHistory.Decimator(f, neon);
  }
}
