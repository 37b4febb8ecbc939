/** The tuner's fractional-N synthesiser: choosing the divider and the feedback ratio
    for a requested frequency. Frequencies are real numbers. */
module TunerPll {
  import opened Wrappers
  import RealMath

  const VCO_MIN: real := 1750000000.0

  datatype PllError = TunerPllRange

  datatype PllConfig = PllConfig(
    refdiv: bool, seldiv: nat, feedbackN: nat, feedbackSdm: nat, actualVco: real, actualFrequency: real)

  function PllRef(xtal: real): real { if xtal > 24000000.0 then xtal / 2.0 else xtal }

  predicate IsDivider(d: nat) { d == 2 || d == 4 || d == 8 || d == 16 || d == 32 || d == 64 }

  // The least of the dividers that lifts the VCO to its lower limit, or the largest divider.
  ghost predicate LeastReaching(requested: real, seldiv: nat) {
    && IsDivider(seldiv)
    && (requested * seldiv as real >= 1750000000.0 || seldiv == 64)
    && forall d: nat :: IsDivider(d) && d < seldiv ==> requested * d as real < 1750000000.0
  }

  lemma LeastReachingUnique(requested: real, a: nat, b: nat)
    requires LeastReaching(requested, a) && LeastReaching(requested, b)
    ensures a == b
  {
    if a < b {
      SmallerFails(requested, a, b);
    } else if b < a {
      SmallerFails(requested, b, a);
    }
  }

  lemma SmallerFails(requested: real, a: nat, b: nat)
    requires IsDivider(a) && a < b && LeastReaching(requested, b)
    ensures !LeastReaching(requested, a)
  {
    assert requested * a as real < VCO_MIN;
  }

  method FindDivider(requested: real) returns (seldiv: nat)
    ensures LeastReaching(requested, seldiv)
  {
    seldiv := 2;
    while requested * seldiv as real < VCO_MIN && seldiv < 64
      invariant IsDivider(seldiv)
      invariant forall d: nat :: IsDivider(d) && d < seldiv ==> requested * d as real < VCO_MIN
      decreases 64 - seldiv
    {
      seldiv := seldiv * 2;
    }
  }

  function LeastDivider(requested: real): (d: nat)
    ensures IsDivider(d)
  {
    if requested * 2.0 >= VCO_MIN then 2
    else if requested * 4.0 >= VCO_MIN then 4
    else if requested * 8.0 >= VCO_MIN then 8
    else if requested * 16.0 >= VCO_MIN then 16
    else if requested * 32.0 >= VCO_MIN then 32
    else 64
  }

  lemma LeastDividerReaches(requested: real)
    ensures LeastReaching(requested, LeastDivider(requested))
  {
  }

  // ---------- the fraction ----------

  // Round up to the next step, clear the two low bits and set the lowest.
  function RawNumerator(frac: real): int {
    var m := (frac * 262144.0 + 1.0).Floor;
    m - m % 4 + 1
  }

  // The numerator after keeping it away from 0, 1/2 and 1, and the carry into the integer part.
  function SnapCarry(raw: int): int { if raw > 262144 - 8 then 1 else 0 }

  function SnapNumerator(raw: int): int {
    if raw < 8 then 0
    else if raw > 262144 - 8 then 0
    else if raw > 131072 - 8 && raw <= 131072 then 131072 - 8
    else if raw > 131072 && raw < 131072 + 8 then 131072 + 8
    else raw
  }

  // Values the modulator must not be given.
  predicate Forbidden(sdm: int) {
    sdm < 0 || 0 < sdm < 8 || sdm > 262144 - 8 || 131072 - 8 < sdm < 131072 + 8
  }

  lemma SnapAvoidsForbidden(frac: real)
    requires 0.0 <= frac < 1.0
    ensures !Forbidden(SnapNumerator(RawNumerator(frac)))
  {
  }

  // The stepwise adjustment loses at most nine steps of 2^-18.
  lemma SnapError(frac: real)
    requires 0.0 <= frac < 1.0
    ensures var raw := RawNumerator(frac);
            -9.0 <= (SnapCarry(raw) * 262144 + SnapNumerator(raw)) as real - frac * 262144.0 <= 9.0
  {
    var x := frac * 262144.0;
    var m := (x + 1.0).Floor;
    assert x < m as real <= x + 1.0;
    assert -2 <= RawNumerator(frac) - m <= 1;
  }

  // ---------- the whole search ----------

  function Feedback(requested: real, seldiv: nat, pllRef: real): real
    requires pllRef > 0.0
  {
    requested * seldiv as real / 2.0 / pllRef
  }

  function IntPart(x: real): int { x.Floor }

  function FracPart(x: real): real { x - x.Floor as real }

  function VcoOf(pllRef: real, ratio: real): real { pllRef * 2.0 * ratio }

  function OutputOf(vco: real, seldiv: nat): real
    requires seldiv > 0
  {
    vco / seldiv as real
  }

  // One step of the modulator, seen at the output.
  function Step(pllRef: real, seldiv: nat): real
    requires seldiv > 0
  {
    2.0 * pllRef / (262144.0 * seldiv as real)
  }

  /** What a result must satisfy, without saying how it is computed. */
  ghost predicate GoodConfig(requested: real, xtal: real, c: PllConfig) {
    && LeastReaching(requested, c.seldiv)
    && (c.refdiv <==> xtal > 24000000.0)
    && 13 <= c.feedbackN <= 269
    && c.feedbackSdm < 65536 && !Forbidden(4 * c.feedbackSdm)
    && RealMath.Abs(c.actualFrequency - requested) <= 9.0 * Step(PllRef(xtal), c.seldiv)
  }

  // Splits the ratio and adjusts the numerator step by step.
  method SplitFeedback(feedback: real) returns (n: int, sdm: int)
    ensures n == IntPart(feedback) + SnapCarry(RawNumerator(FracPart(feedback)))
    ensures sdm == SnapNumerator(RawNumerator(FracPart(feedback)))
  {
    n := feedback.Floor;
    var m := ((feedback - n as real) * 262144.0 + 1.0).Floor;
    sdm := m - m % 4 + 1;
    if sdm < 8 {
      sdm := 0;
    } else if sdm > 262144 - 8 {
      sdm := 0;
      n := n + 1;
    } else if sdm > 131072 - 8 && sdm <= 131072 {
      sdm := 131072 - 8;
    } else if sdm > 131072 && sdm < 131072 + 8 {
      sdm := 131072 + 8;
    }
  }

  // The whole result as a function of the request.
  function Pll(requested: real, xtal: real): Result<PllConfig, PllError>
    requires xtal > 0.0
  {
    if 13.0 <= Feedback(requested, LeastDivider(requested), PllRef(xtal)) < 269.0
    then Ok(Solution(requested, xtal, LeastDivider(requested)))
    else Err(TunerPllRange)
  }

  /** Succeeds exactly when the feedback ratio is in range, and then returns the solution
      for the least divider. */
  method FindPllParameters(requested: real, xtal: real) returns (r: Result<PllConfig, PllError>)
    requires xtal > 0.0
    ensures r.Ok? ==> GoodConfig(requested, xtal, r.value)
    ensures r == Pll(requested, xtal)
  {
    hide GoodConfig, LeastReaching, RawNumerator, SnapCarry, SnapNumerator, IntPart, FracPart, Solution, VcoOf, OutputOf, LeastDivider, Feedback;
    var refdiv := xtal > 24000000.0;
    var pllRef := if refdiv then xtal / 2.0 else xtal;
    var seldiv := FindDivider(requested);
    DividerFacts(requested, seldiv);
    LeastDividerReaches(requested);
    var requiredVco := requested * seldiv as real;
    var feedback := requiredVco / 2.0 / pllRef;
    assert feedback == Feedback(requested, seldiv, PllRef(xtal)) by { FeedbackIs(requested, seldiv, pllRef); }
    if feedback < 13.0 || feedback >= 269.0 { return Err(TunerPllRange); }
    var n, sdm := SplitFeedback(feedback);
    SolutionGood(requested, xtal, seldiv);
    SolutionIs(requested, xtal, seldiv);
    var actualVco := VcoOf(pllRef, n as real + sdm as real / 262144.0);
    r := Ok(PllConfig(refdiv, seldiv, n, sdm / 4, actualVco, OutputOf(actualVco, seldiv)));
  }

  lemma FeedbackIs(requested: real, seldiv: nat, pllRef: real)
    requires pllRef > 0.0
    ensures requested * seldiv as real / 2.0 / pllRef == Feedback(requested, seldiv, pllRef)
  {
  }

  lemma DividerFacts(requested: real, seldiv: nat)
    requires LeastReaching(requested, seldiv)
    ensures IsDivider(seldiv) && forall d: nat | LeastReaching(requested, d) :: d == seldiv
  {
    forall d: nat | LeastReaching(requested, d) ensures d == seldiv { LeastReachingUnique(requested, d, seldiv); }
  }

  function Ratio(feedback: real): real {
    (IntPart(feedback) + SnapCarry(RawNumerator(FracPart(feedback)))) as real
    + SnapNumerator(RawNumerator(FracPart(feedback))) as real / 262144.0
  }

  function Solution(requested: real, xtal: real, seldiv: nat): PllConfig
    requires xtal > 0.0 && IsDivider(seldiv) && 13.0 <= Feedback(requested, seldiv, PllRef(xtal)) < 269.0
  {
    var feedback := Feedback(requested, seldiv, PllRef(xtal));
    var raw := RawNumerator(FracPart(feedback));
    var actualVco := VcoOf(PllRef(xtal), Ratio(feedback));
    SnapAvoidsForbidden(FracPart(feedback));
    PllConfig(xtal > 24000000.0, seldiv, IntPart(feedback) + SnapCarry(raw), SnapNumerator(raw) / 4,
              actualVco, OutputOf(actualVco, seldiv))
  }

  lemma RatioError(feedback: real)
    ensures RealMath.Abs(Ratio(feedback) - feedback) <= 9.0 / 262144.0
  {
    SnapError(FracPart(feedback));
    hide RawNumerator, SnapCarry, SnapNumerator;
    var raw := RawNumerator(FracPart(feedback));
    assert (SnapCarry(raw) * 262144 + SnapNumerator(raw)) as real == SnapCarry(raw) as real * 262144.0 + SnapNumerator(raw) as real;
  }

  lemma Combine(ratio: real, f: real, k: real, e: real, x: real, y: real, b: real)
    requires k > 0.0 && -e <= ratio - f <= e
    requires x == ratio * k && y == f * k && b == e * k
    ensures RealMath.Abs(x - y) <= b
  {
    RealMath.MulLessEq(ratio, f + e, k);
    RealMath.MulLessEq(f - e, ratio, k);
    assert (f + e) * k == f * k + e * k;
    assert (f - e) * k == f * k - e * k;
  }

  lemma ScaleTerms(seldiv: real, pllRef: real, ratio: real)
    requires seldiv > 0.0 && pllRef > 0.0
    ensures 2.0 * pllRef / seldiv > 0.0
    ensures pllRef * 2.0 * ratio / seldiv == ratio * (2.0 * pllRef / seldiv)
    ensures 2.0 * pllRef / (262144.0 * seldiv) == 1.0 / 262144.0 * (2.0 * pllRef / seldiv)
  {
    var k := 2.0 * pllRef / seldiv;
    assert k * seldiv == 2.0 * pllRef;
    assert 1.0 / 262144.0 * k * (262144.0 * seldiv) == k * seldiv;
    assert ratio * k * seldiv == ratio * (k * seldiv);
  }

  lemma Undo(requested: real, seldiv: real, pllRef: real)
    requires seldiv > 0.0 && pllRef > 0.0
    ensures requested * seldiv / 2.0 / pllRef * (2.0 * pllRef / seldiv) == requested
  {
    var a := requested * seldiv / 2.0;
    assert a / pllRef * pllRef == a;
    var b := a / pllRef;
    assert b * (2.0 * pllRef / seldiv) == (b * pllRef) * 2.0 / seldiv;
  }

  lemma SolutionGood(requested: real, xtal: real, seldiv: nat)
    requires xtal > 0.0 && LeastReaching(requested, seldiv) && 13.0 <= Feedback(requested, seldiv, PllRef(xtal)) < 269.0
    ensures GoodConfig(requested, xtal, Solution(requested, xtal, seldiv))
  {
    hide RawNumerator, LeastReaching, Ratio, SnapCarry, SnapNumerator, VcoOf, OutputOf, Step, Feedback;
    var feedback := Feedback(requested, seldiv, PllRef(xtal));
    DividerFacts(requested, seldiv);
    RatioError(feedback);
    CloseTo(requested, seldiv, PllRef(xtal), Ratio(feedback), 9.0);
    RangeOf(feedback);
  }

  lemma RangeOf(feedback: real)
    requires 13.0 <= feedback < 269.0
    ensures 13 <= IntPart(feedback) + SnapCarry(RawNumerator(FracPart(feedback))) <= 269
    ensures 0 <= SnapNumerator(RawNumerator(FracPart(feedback))) <= 262144 - 8
    ensures !Forbidden(4 * (SnapNumerator(RawNumerator(FracPart(feedback))) / 4))
  {
    SnapAvoidsForbidden(FracPart(feedback));
    SnapFourths(FracPart(feedback));
    hide RawNumerator, SnapNumerator;
  }

  // Dropping the low two bits leaves the allowed set too.
  lemma SnapFourths(frac: real)
    requires 0.0 <= frac < 1.0
    ensures !Forbidden(4 * (SnapNumerator(RawNumerator(frac)) / 4))
  {
  }

  lemma SolutionIs(requested: real, xtal: real, seldiv: nat)
    requires xtal > 0.0 && IsDivider(seldiv) && 13.0 <= Feedback(requested, seldiv, PllRef(xtal)) < 269.0
    ensures var feedback := Feedback(requested, seldiv, PllRef(xtal));
            var n := IntPart(feedback) + SnapCarry(RawNumerator(FracPart(feedback)));
            var sdm := SnapNumerator(RawNumerator(FracPart(feedback)));
            var vco := VcoOf(PllRef(xtal), n as real + sdm as real / 262144.0);
            n >= 13 && sdm >= 0 &&
            Solution(requested, xtal, seldiv)
            == PllConfig(xtal > 24000000.0, seldiv, n, sdm / 4, vco, OutputOf(vco, seldiv))
  {
    hide RawNumerator, SnapCarry, SnapNumerator;
    RangeOf(Feedback(requested, seldiv, PllRef(xtal)));
  }

  // ---------- exactly which fields ----------

  // 2^18 steps make one; x counts the steps of the fraction. Near 0, 1/2 and 1 the numerator
  // is moved, elsewhere it is the odd multiple of four plus one within two steps.
  lemma SnapZones(frac: real)
    requires 0.0 <= frac < 1.0
    ensures var x, raw := frac * 262144.0, RawNumerator(frac);
            && (SnapCarry(raw) == if x >= 262135.0 then 1 else 0)
            && (SnapNumerator(raw) ==
                if x < 7.0 || x >= 262135.0 then 0
                else if 131063.0 <= x < 131071.0 then 131064
                else if 131071.0 <= x < 131079.0 then 131080
                else 4 * ((x + 1.0) / 4.0).Floor + 1)
  {
    var x := frac * 262144.0;
    FloorOfQuarter(x + 1.0);
    StepsOf((x + 1.0).Floor, x);
  }

  lemma FloorOfQuarter(y: real)
    ensures (y / 4.0).Floor == y.Floor / 4
  {
  }

  lemma StepsOf(m: int, x: real)
    requires m as real <= x + 1.0 < m as real + 1.0 && m >= 0
    ensures m - m % 4 + 1 == 4 * (m / 4) + 1
    ensures m - m % 4 + 1 < 8 <==> x < 7.0
    ensures m - m % 4 + 1 > 262144 - 8 <==> x >= 262135.0
    ensures 131072 - 8 < m - m % 4 + 1 <= 131072 <==> 131063.0 <= x < 131071.0
    ensures 131072 < m - m % 4 + 1 < 131072 + 8 <==> 131071.0 <= x < 131079.0
  {
  }

  // The modulator value for x steps: the numerator without its two lowest bits.
  function SdmFor(x: real): int {
    if x < 7.0 || x >= 262135.0 then 0
    else if 131063.0 <= x < 131071.0 then 32766
    else if 131071.0 <= x < 131079.0 then 32770
    else ((x + 1.0) / 4.0).Floor
  }

  /** The result for a request, in numbers: with f the feedback ratio of the least divider, n
      its integer part and x the steps of its fraction, the search succeeds exactly for
      13 <= f < 269, and these are the fields it returns. */
  lemma PllFields(requested: real, xtal: real, seldiv: nat)
    requires xtal > 0.0 && LeastReaching(requested, seldiv)
    ensures var pllRef := if xtal > 24000000.0 then xtal / 2.0 else xtal;
            var f := requested * seldiv as real / 2.0 / pllRef;
            var n, x := f.Floor, (f - f.Floor as real) * 262144.0;
            && (Pll(requested, xtal).Ok? <==> 13.0 <= f < 269.0)
            && (Pll(requested, xtal).Ok? ==>
                  var c := Pll(requested, xtal).value;
                  && (c.refdiv <==> xtal > 24000000.0) && c.seldiv == seldiv
                  && c.feedbackN == (if x >= 262135.0 then n + 1 else n) && c.feedbackSdm == SdmFor(x))
  {
    LeastDividerReaches(requested);
    DividerFacts(requested, seldiv);
    hide LeastReaching, LeastDivider, RawNumerator, SnapCarry, SnapNumerator, VcoOf, OutputOf;
    var f := Feedback(requested, seldiv, PllRef(xtal));
    if 13.0 <= f < 269.0 {
      SolutionIs(requested, xtal, seldiv);
      SnapZones(FracPart(f));
      QuarterOf(FracPart(f) * 262144.0);
    }
  }

  lemma QuarterOf(x: real)
    ensures (4 * ((x + 1.0) / 4.0).Floor + 1) / 4 == ((x + 1.0) / 4.0).Floor
  {
  }

  lemma IntegerRatioFields(requested: real, xtal: real, seldiv: nat, n: nat)
    requires xtal > 0.0 && LeastReaching(requested, seldiv) && 13 <= n < 269
    requires requested * seldiv as real / 2.0 / PllRef(xtal) == n as real
    ensures Pll(requested, xtal).Ok? && Pll(requested, xtal).value.feedbackN == n && Pll(requested, xtal).value.feedbackSdm == 0
  {
    hide LeastReaching, Pll;
    PllFields(requested, xtal, seldiv);
    assert (n as real).Floor == n;
  }

  /** A request for an integer ratio is met exactly, with the modulator value zero. */
  lemma IntegerRatioExact(requested: real, xtal: real, seldiv: nat, n: nat)
    requires xtal > 0.0 && LeastReaching(requested, seldiv) && 13 <= n < 269
    requires requested * seldiv as real == 2.0 * n as real * (if xtal > 24000000.0 then xtal / 2.0 else xtal)
    ensures Pll(requested, xtal).Ok?
    ensures var c := Pll(requested, xtal).value;
            c.feedbackN == n && c.feedbackSdm == 0 && c.actualFrequency == requested
  {
    hide LeastReaching, Pll;
    RatioIsInteger(requested, seldiv, PllRef(xtal), n);
    IntegerRatioFields(requested, xtal, seldiv, n);
    ExactOutput(requested, xtal, seldiv, n);
  }

  lemma RatioIsInteger(requested: real, seldiv: nat, pllRef: real, n: nat)
    requires pllRef > 0.0 && requested * seldiv as real == 2.0 * n as real * pllRef
    ensures Feedback(requested, seldiv, pllRef) == n as real
  {
    assert requested * seldiv as real / 2.0 == n as real * pllRef;
  }

  lemma ExactOutput(requested: real, xtal: real, seldiv: nat, n: nat)
    requires xtal > 0.0 && LeastReaching(requested, seldiv) && 13 <= n < 269 && Pll(requested, xtal).Ok?
    requires Feedback(requested, seldiv, PllRef(xtal)) == n as real
    ensures Pll(requested, xtal).value.actualFrequency == requested
  {
    LeastDividerReaches(requested);
    DividerFacts(requested, seldiv);
    SnapZones(0.0);
    hide LeastReaching, LeastDivider, RawNumerator, SnapCarry, SnapNumerator, VcoOf, OutputOf, Feedback;
    SolutionIs(requested, xtal, seldiv);
    assert FracPart(n as real) == 0.0;
    Returns(requested, seldiv, PllRef(xtal), n as real);
  }

  lemma Returns(requested: real, seldiv: nat, pllRef: real, ratio: real)
    requires seldiv > 0 && pllRef > 0.0 && Feedback(requested, seldiv, pllRef) == ratio
    ensures OutputOf(VcoOf(pllRef, ratio), seldiv) == requested
  {
    Undo(requested, seldiv as real, pllRef);
    ScaleTerms(seldiv as real, pllRef, ratio);
  }

  // Away from the forbidden zones the numerator is within two steps of the fraction.
  lemma StepsWithinTwo(frac: real)
    requires 0.0 <= frac < 1.0 && 7.0 <= frac * 262144.0 < 262135.0
    requires !(131063.0 <= frac * 262144.0 < 131079.0)
    ensures -2.0 < SnapNumerator(RawNumerator(frac)) as real - frac * 262144.0 <= 2.0
    ensures SnapCarry(RawNumerator(frac)) == 0
  {
    SnapZones(frac);
    hide SnapNumerator, RawNumerator, SnapCarry;
    var y := frac * 262144.0 + 1.0;
    var q := (y / 4.0).Floor;
    assert q as real <= y / 4.0 < q as real + 1.0;
  }

  lemma RatioWithinTwo(f: real)
    requires 7.0 <= (f - f.Floor as real) * 262144.0 < 262135.0
    requires !(131063.0 <= (f - f.Floor as real) * 262144.0 < 131079.0)
    ensures var ratio := (IntPart(f) + SnapCarry(RawNumerator(FracPart(f)))) as real +
                         SnapNumerator(RawNumerator(FracPart(f))) as real / 262144.0;
            -(2.0 / 262144.0) <= ratio - f <= 2.0 / 262144.0
  {
    StepsWithinTwo(FracPart(f));
    hide RawNumerator, SnapCarry, SnapNumerator;
    assert f == IntPart(f) as real + FracPart(f);
  }

  /** Outside the zones around 0, 1/2 and 1 the output is within two modulator steps. */
  lemma OutsideZonesClose(requested: real, xtal: real, seldiv: nat)
    requires xtal > 0.0 && LeastReaching(requested, seldiv) && Pll(requested, xtal).Ok?
    requires var f := requested * seldiv as real / 2.0 / PllRef(xtal);
             var x := (f - f.Floor as real) * 262144.0;
             7.0 <= x < 262135.0 && !(131063.0 <= x < 131079.0)
    ensures RealMath.Abs(Pll(requested, xtal).value.actualFrequency - requested) <= 2.0 * Step(PllRef(xtal), seldiv)
  {
    hide LeastReaching, LeastDivider, RawNumerator, SnapCarry, SnapNumerator, VcoOf, OutputOf, Step, IntPart, FracPart, Pll;
    LeastDividerReaches(requested);
    DividerFacts(requested, seldiv);
    var f := Feedback(requested, seldiv, PllRef(xtal));
    RatioWithinTwo(f);
    hide Feedback;
    PllIs(requested, xtal);
    SolutionIs(requested, xtal, seldiv);
    var ratio := (IntPart(f) + SnapCarry(RawNumerator(FracPart(f)))) as real +
                 SnapNumerator(RawNumerator(FracPart(f))) as real / 262144.0;
    CloseTo(requested, seldiv, PllRef(xtal), ratio, 2.0);
  }

  lemma CloseTo(requested: real, seldiv: nat, pllRef: real, ratio: real, steps: real)
    requires seldiv > 0 && pllRef > 0.0
    requires -(steps / 262144.0) <= ratio - Feedback(requested, seldiv, pllRef) <= steps / 262144.0
    ensures RealMath.Abs(OutputOf(VcoOf(pllRef, ratio), seldiv) - requested) <= steps * Step(pllRef, seldiv)
  {
    var d := seldiv as real;
    ScaleTerms(d, pllRef, ratio);
    Undo(requested, d, pllRef);
    var f, k := Feedback(requested, seldiv, pllRef), 2.0 * pllRef / d;
    assert steps / 262144.0 * k == steps * (1.0 / 262144.0 * k);
    Combine(ratio, f, k, steps / 262144.0, OutputOf(VcoOf(pllRef, ratio), seldiv), requested, steps * Step(pllRef, seldiv));
  }

  // ---------- the carry into the integer part ----------

  /** The feedback integer leaves the 6-bit register range (that is, reaches 269) exactly
      for feedback ratios within nine steps of the upper limit. */
  lemma OverflowIff(requested: real, xtal: real, seldiv: nat)
    requires xtal > 0.0 && IsDivider(seldiv) && 13.0 <= Feedback(requested, seldiv, PllRef(xtal)) < 269.0
    ensures Solution(requested, xtal, seldiv).feedbackN == 269 <==>
            Feedback(requested, seldiv, PllRef(xtal)) >= 269.0 - 9.0 / 262144.0
  {
    var feedback := Feedback(requested, seldiv, PllRef(xtal));
    CarryIff(FracPart(feedback));
    hide RawNumerator, Feedback;
  }

  lemma CarryIff(frac: real)
    requires 0.0 <= frac < 1.0
    ensures SnapCarry(RawNumerator(frac)) == 1 <==> frac >= 1.0 - 9.0 / 262144.0
  {
    var x := frac * 262144.0;
    var m := (x + 1.0).Floor;
    assert m as real <= x + 1.0 < m as real + 1.0;
  }

  // A request that does: a 16 MHz crystal and just below 4304 MHz.
  lemma OverflowWitness()
    ensures LeastReaching(4303999999.0, 2) && Feedback(4303999999.0, 2, PllRef(16000000.0)) < 269.0
    ensures Feedback(4303999999.0, 2, PllRef(16000000.0)) >= 13.0
    ensures Solution(4303999999.0, 16000000.0, 2).feedbackN == 269
  {
    OverflowIff(4303999999.0, 16000000.0, 2);
  }

  // ---------- configurations that program the same registers ----------

  predicate SameFields(a: PllConfig, b: PllConfig) {
    a.refdiv == b.refdiv && a.seldiv == b.seldiv && a.feedbackN == b.feedbackN && a.feedbackSdm == b.feedbackSdm
  }

  // Numerators end in 0 or 1 (of 4), so equal registers leave at most one step open.
  lemma NumeratorResidue(frac: real)
    requires 0.0 <= frac < 1.0
    ensures SnapNumerator(RawNumerator(frac)) % 4 <= 1
  {
  }

  lemma RatioSplit(feedback: real)
    requires 13.0 <= feedback < 269.0
    ensures var n := IntPart(feedback) + SnapCarry(RawNumerator(FracPart(feedback)));
            var sdm := SnapNumerator(RawNumerator(FracPart(feedback)));
            n as real + (sdm / 4) as real * 4.0 / 262144.0 <= Ratio(feedback)
            <= n as real + (sdm / 4) as real * 4.0 / 262144.0 + 1.0 / 262144.0
  {
    NumeratorResidue(FracPart(feedback));
    hide RawNumerator, SnapNumerator, SnapCarry, IntPart, FracPart;
    var sdm := SnapNumerator(RawNumerator(FracPart(feedback)));
    assert sdm == 4 * (sdm / 4) + sdm % 4;
  }

  lemma CloseOutputs(r1: real, r2: real, pllRef: real, seldiv: nat)
    requires pllRef > 0.0 && seldiv > 0 && -(1.0 / 262144.0) <= r1 - r2 <= 1.0 / 262144.0
    ensures RealMath.Abs(OutputOf(VcoOf(pllRef, r1), seldiv) - OutputOf(VcoOf(pllRef, r2), seldiv))
            <= Step(pllRef, seldiv)
  {
    var d := seldiv as real;
    ScaleTerms(d, pllRef, r1);
    ScaleTerms(d, pllRef, r2);
    Combine(r1, r2, 2.0 * pllRef / d, 1.0 / 262144.0,
            OutputOf(VcoOf(pllRef, r1), seldiv), OutputOf(VcoOf(pllRef, r2), seldiv), Step(pllRef, seldiv));
  }

  /** Two requests that program the same registers have outputs within one step. */
  lemma SameFieldsClose(a: real, b: real, xtal: real)
    requires xtal > 0.0 && Pll(a, xtal).Ok? && Pll(b, xtal).Ok? && SameFields(Pll(a, xtal).value, Pll(b, xtal).value)
    ensures Pll(a, xtal).value.seldiv > 0
    ensures RealMath.Abs(Pll(a, xtal).value.actualFrequency - Pll(b, xtal).value.actualFrequency)
            <= Step(PllRef(xtal), Pll(a, xtal).value.seldiv)
  {
    hide RawNumerator, SnapNumerator, SnapCarry, IntPart, FracPart, Ratio, VcoOf, OutputOf, Step, Feedback, LeastDivider;
    var fa := Feedback(a, LeastDivider(a), PllRef(xtal));
    var fb := Feedback(b, LeastDivider(b), PllRef(xtal));
    SolutionIs(a, xtal, LeastDivider(a));
    SolutionIs(b, xtal, LeastDivider(b));
    RatioSplit(fa);
    RatioSplit(fb);
    CloseOutputs(Ratio(fa), Ratio(fb), PllRef(xtal), LeastDivider(a));
  }

  lemma PllGood(requested: real, xtal: real)
    requires xtal > 0.0 && Pll(requested, xtal).Ok?
    ensures GoodConfig(requested, xtal, Pll(requested, xtal).value)
  {
    LeastDividerReaches(requested);
    hide *;
    PllIs(requested, xtal);
    SolutionGood(requested, xtal, LeastDivider(requested));
  }

  lemma PllIs(requested: real, xtal: real)
    requires xtal > 0.0 && Pll(requested, xtal).Ok?
    ensures 13.0 <= Feedback(requested, LeastDivider(requested), PllRef(xtal)) < 269.0
    ensures Pll(requested, xtal).value == Solution(requested, xtal, LeastDivider(requested))
  {
  }
}
