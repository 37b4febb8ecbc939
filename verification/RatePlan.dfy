/** From the requested sample rate to the ADC rate, the decimation and the transfer sizes. */
module RatePlan {
  import opened Wrappers
  import opened FrequencyPlan
  import opened Cascade
  import AdcPll
  import RealMath

  const DECIMATION_MAX := 8
  const DECIMATION_AUTO := -1
  const MAX_USB_TRANSFER := 2 * 1024 * 1024
  const EPSILON := 0.00001

  datatype Error = BadState | BadArgument | AdcRateRange | TunerPllRange | TunerFailed

  datatype RateInput = RateInput(
    mode: ConversionMode, rate: real, decimation: int, adcLimit: real, bufferSize: nat,
    samplesPerBlock: nat, bytesPerBlock: nat, noPll: bool)

  datatype Sizes = Sizes(transferBytes: nat, adcPerTransfer: nat, adcPerUser: nat, postDecimation: nat)

  datatype Plan = Plan(adc: AdcPll.Config, sizes: Sizes)

  // What the setters let through.
  predicate ValidInput(i: RateInput) {
    && 1000.0 < i.rate <= 100000000.0
    && i.decimation >= DECIMATION_AUTO
    && 0.0 < i.adcLimit <= AdcPll.RATE_MAX
    && i.bufferSize >= 1 && i.samplesPerBlock > 0 && i.bytesPerBlock > 0
  }

  // ADC rate for p extra stages: each halves, and the downconverter halves once.
  function AdcRate(rate: real, p: nat): real { rate * (2 * Pow2(p)) as real }

  // ---------- explicit decimation ----------

  function ManualStages(rate: real, limit: real, p: nat): nat {
    if p > 0 && AdcRate(rate, p) > limit then ManualStages(rate, limit, p - 1) else p
  }

  /** The largest number of stages, up to p, whose ADC rate is within the limit. */
  lemma {:induction false} ManualIsLargest(rate: real, limit: real, p: nat)
    ensures ManualStages(rate, limit, p) <= p
    ensures ManualStages(rate, limit, p) > 0 ==> AdcRate(rate, ManualStages(rate, limit, p)) <= limit
    ensures forall j :: ManualStages(rate, limit, p) < j <= p ==> AdcRate(rate, j) > limit
  {
    hide AdcRate;
    if p > 0 && AdcRate(rate, p) > limit { ManualIsLargest(rate, limit, p - 1); }
  }

  method ChooseManual(rate: real, limit: real, decimation: nat) returns (p: nat)
    ensures p == ManualStages(rate, limit, if decimation >= DECIMATION_MAX then DECIMATION_MAX else decimation)
  {
    p := if decimation >= DECIMATION_MAX then DECIMATION_MAX else decimation;
    while p > 0 && AdcRate(rate, p) > limit
      invariant ManualStages(rate, limit, p) == ManualStages(rate, limit, if decimation >= DECIMATION_MAX then DECIMATION_MAX else decimation)
    {
      p := p - 1;
    }
  }

  // ---------- automatic decimation ----------

  function Scaled(rate: real, p: nat): real { rate * Pow2(p) as real }

  // Keep doubling while the rate fits and the oversampling margin is below 0.5 MHz.
  predicate KeepDoubling(rate: real, limit: real, p: nat) {
    Scaled(rate, p) * 4.0 <= limit && p < DECIMATION_MAX && Scaled(rate, p) - rate < 500000.0
  }

  function AutoStages(rate: real, limit: real, p: nat): nat
    requires p <= DECIMATION_MAX
    decreases DECIMATION_MAX - p
  {
    if KeepDoubling(rate, limit, p) then AutoStages(rate, limit, p + 1) else p
  }

  /** The least number of stages at which doubling stops. */
  lemma {:induction false} AutoIsLeast(rate: real, limit: real, p: nat)
    requires p <= DECIMATION_MAX
    ensures p <= AutoStages(rate, limit, p) <= DECIMATION_MAX
    ensures !KeepDoubling(rate, limit, AutoStages(rate, limit, p))
    ensures forall j :: p <= j < AutoStages(rate, limit, p) ==> KeepDoubling(rate, limit, j)
    decreases DECIMATION_MAX - p
  {
    hide Scaled;
    if KeepDoubling(rate, limit, p) { AutoIsLeast(rate, limit, p + 1); }
  }

  method ChooseAuto(rate: real, limit: real) returns (p: nat)
    ensures p == AutoStages(rate, limit, 0)
  {
    hide Scaled;
    var scaled := rate;
    p := 0;
    Doubled(rate, 0);
    while scaled * 4.0 <= limit && p < DECIMATION_MAX && scaled - rate < 500000.0
      invariant p <= DECIMATION_MAX && scaled == Scaled(rate, p)
      invariant AutoStages(rate, limit, p) == AutoStages(rate, limit, 0)
      decreases DECIMATION_MAX - p
    {
      Doubled(rate, p);
      p := p + 1;
      scaled := scaled * 2.0;
    }
  }

  lemma Doubled(rate: real, p: nat)
    ensures Scaled(rate, 0) == rate && Scaled(rate, p + 1) == Scaled(rate, p) * 2.0
  {
    hide Pow2;
    Pow2Step(p);
    Times2(rate, Pow2(p));
  }

  lemma Times2(rate: real, n: nat)
    ensures rate * (2 * n) as real == rate * n as real * 2.0
  {
  }

  // ---------- the plan ----------

  function Stages(i: RateInput): nat
    requires ValidInput(i)
  {
    if i.mode == LowIfReal then 0
    else if i.decimation >= 0 then
      ManualStages(i.rate, i.adcLimit, if i.decimation >= DECIMATION_MAX then DECIMATION_MAX else i.decimation)
    else AutoStages(i.rate, i.adcLimit, 0)
  }

  function AdcPerUser(i: RateInput): (r: nat)
    requires ValidInput(i)
    ensures r > 0
  {
    if i.mode == LowIfReal then 1 else 2 * Pow2(Stages(i))
  }

  function Target(i: RateInput): real
    requires ValidInput(i)
  {
    i.rate * AdcPerUser(i) as real
  }

  function BlocksPerTransfer(bufferSize: nat, ratio: nat, spb: nat, bpb: nat): nat
    requires spb > 0 && bpb > 0
  {
    var blocks := bufferSize * ratio / spb;
    if blocks * bpb > MAX_USB_TRANSFER then MAX_USB_TRANSFER / bpb else blocks
  }

  function SizesFor(i: RateInput): Sizes
    requires ValidInput(i)
  {
    var blocks := BlocksPerTransfer(i.bufferSize, AdcPerUser(i), i.samplesPerBlock, i.bytesPerBlock);
    Sizes(blocks * i.bytesPerBlock, blocks * i.samplesPerBlock, AdcPerUser(i), Stages(i))
  }

  /** The number of blocks is the largest that stays within the USB limit and one user
      buffer; it is zero exactly when a single block does not fit. */
  lemma TransferFits(bufferSize: nat, ratio: nat, spb: nat, bpb: nat)
    requires spb > 0 && bpb > 0
    ensures BlocksPerTransfer(bufferSize, ratio, spb, bpb) * bpb <= MAX_USB_TRANSFER
    ensures BlocksPerTransfer(bufferSize, ratio, spb, bpb) * spb <= bufferSize * ratio
    ensures (BlocksPerTransfer(bufferSize, ratio, spb, bpb) + 1) * bpb > MAX_USB_TRANSFER ||
            (BlocksPerTransfer(bufferSize, ratio, spb, bpb) + 1) * spb > bufferSize * ratio
    ensures BlocksPerTransfer(bufferSize, ratio, spb, bpb) == 0 <==> bufferSize * ratio < spb || bpb > MAX_USB_TRANSFER
  {
    var total := bufferSize * ratio;
    var blocks, cap := total / spb, MAX_USB_TRANSFER / bpb;
    QuotientTimes(total, spb);
    QuotientTimes(MAX_USB_TRANSFER, bpb);
    if blocks * bpb > MAX_USB_TRANSFER {
      CappedBelow(cap, blocks, bpb);
      RealMath.IntMulLessEq(cap, blocks, spb);
    } else if blocks > 0 {
      RealMath.IntMulLessEq(1, blocks, bpb);
    }
  }

  lemma OneMoreBlock(blocks: nat, size: nat)
    ensures (blocks + 1) * size == blocks * size + size
  {
  }

  lemma NoBlocksNoBytes(blocks: nat, bpb: nat)
    requires bpb > 0
    ensures blocks * bpb == 0 <==> blocks == 0
  {
  }

  lemma QuotientTimes(x: nat, d: nat)
    requires d > 0
    ensures 0 <= x / d && x / d * d <= x < (x / d + 1) * d
    ensures x / d == 0 <==> x < d
  {
    var q, r := x / d, x % d;
    assert x == d * q + r;
    if q < 0 { RealMath.IntMulLessEq(q, -1, d); }
    if q > 0 { RealMath.IntMulLessEq(1, q, d); }
  }

  lemma CappedBelow(a: int, b: int, d: nat)
    requires d > 0 && a * d < b * d
    ensures a < b
  {
    if a >= b { RealMath.IntMulLessEq(b, a, d); }
  }

  function PlanRate(i: RateInput): (r: Result<Plan, Error>)
    requires ValidInput(i)
  {
    TargetAtLeastRate(i);
    if Target(i) > i.adcLimit then Err(AdcRateRange)
    else
      var found := AdcPll.Find(Target(i), false, true, i.noPll, EPSILON);
      if found.Ok? then Ok(Plan(found.value, SizesFor(i))) else Err(AdcRateRange)
  }

  lemma TargetIs(i: RateInput)
    requires ValidInput(i)
    ensures Target(i) == i.rate * AdcPerUser(i) as real
  {
    hide AdcPerUser;
  }

  // A plan is the found ADC configuration with the sizes for its input.
  lemma PlanParts(i: RateInput)
    requires ValidInput(i) && PlanRate(i).Ok?
    ensures Target(i) >= i.rate >= 1.0 && AdcPll.Find(Target(i), false, true, i.noPll, EPSILON).Ok?
    ensures PlanRate(i).value.adc == AdcPll.Find(Target(i), false, true, i.noPll, EPSILON).value
    ensures PlanRate(i).value.sizes.adcPerUser == AdcPerUser(i)
  {
    hide Target, AdcPerUser, AdcPll.Find, BlocksPerTransfer, Stages;
    TargetAtLeastRate(i);
  }

  lemma TargetAtLeastRate(i: RateInput)
    requires ValidInput(i)
    ensures Target(i) >= i.rate >= 1.0
  {
    hide Stages, Pow2;
    var k := AdcPerUser(i) as real;
    RealMath.MulLessEq(1.0, k, i.rate);
    assert Target(i) == i.rate * k;
  }

  /** A rate can be planned exactly when the ADC rate it needs is within the limit and not
      below the slowest rate the PLL can divide down to. */
  lemma PlanSucceedsIff(i: RateInput)
    requires ValidInput(i)
    ensures PlanRate(i).Ok? <==> AdcPll.RATE_MIN <= Target(i) <= i.adcLimit
  {
    hide Target, SizesFor, AdcPll.Find;
    TargetAtLeastRate(i);
    AdcPll.SearchSucceedsIff(Target(i), false, i.noPll, EPSILON);
  }

  // The most stages the decimation setting allows.
  function StageLimit(decimation: int): nat {
    if 0 <= decimation < DECIMATION_MAX then decimation else DECIMATION_MAX
  }

  lemma {:induction false} AdcRateGrows(rate: real, p: nat, q: nat)
    requires rate > 0.0 && p <= q
    ensures AdcRate(rate, p) <= AdcRate(rate, q)
    decreases q
  {
    if p < q {
      AdcRateGrows(rate, p, q - 1);
      AdcRateDoubles(rate, q - 1);
    }
  }

  lemma AdcRateDoubles(rate: real, p: nat)
    requires rate > 0.0
    ensures AdcRate(rate, p) == 2.0 * Scaled(rate, p) > 0.0
    ensures AdcRate(rate, p + 1) == 2.0 * AdcRate(rate, p) == 4.0 * Scaled(rate, p)
  {
    hide Pow2;
    Pow2Step(p);
    var n := Pow2(p);
    RealMath.MulLessEq(1.0, n as real, rate);
    assert rate * (2 * n) as real == 2.0 * (rate * n as real);
    assert rate * (2 * (2 * n)) as real == 4.0 * (rate * n as real);
  }

  // Some stage count within the setting puts the ADC rate between the PLL's minimum and the limit.
  ghost predicate StageFits(i: RateInput) {
    exists p: nat :: p <= StageLimit(i.decimation) && AdcPll.RATE_MIN <= AdcRate(i.rate, p) <= i.adcLimit
  }

  lemma ManualFitsIff(i: RateInput)
    requires ValidInput(i) && i.mode == Baseband && i.decimation >= 0
    ensures AdcPll.RATE_MIN <= AdcRate(i.rate, Stages(i)) <= i.adcLimit <==> StageFits(i)
  {
    hide AdcRate;
    var q := Stages(i);
    ManualIsLargest(i.rate, i.adcLimit, StageLimit(i.decimation));
    if StageFits(i) {
      var p: nat :| p <= StageLimit(i.decimation) && AdcPll.RATE_MIN <= AdcRate(i.rate, p) <= i.adcLimit;
      AdcRateGrows(i.rate, 0, p);
      AdcRateGrows(i.rate, p, q);
    }
  }

  // Doubling stops for lack of room under the limit, at the last stage, or once the rate is well above the minimum.
  lemma AutoFitsIff(i: RateInput)
    requires ValidInput(i) && i.mode == Baseband && i.decimation < 0
    ensures AdcPll.RATE_MIN <= AdcRate(i.rate, Stages(i)) <= i.adcLimit <==> StageFits(i)
  {
    hide AdcRate, Scaled, AutoStages;
    var q := Stages(i);
    AutoIsLeast(i.rate, i.adcLimit, 0);
    AdcRateDoubles(i.rate, q);
    if q > 0 {
      assert KeepDoubling(i.rate, i.adcLimit, q - 1);
      AdcRateDoubles(i.rate, q - 1);
    }
    if StageFits(i) {
      var p: nat :| p <= StageLimit(i.decimation) && AdcPll.RATE_MIN <= AdcRate(i.rate, p) <= i.adcLimit;
      AdcRateGrows(i.rate, 0, p);
      if p <= q {
        AdcRateGrows(i.rate, p, q);
      } else {
        AdcRateGrows(i.rate, q + 1, p);
      }
    }
  }

  lemma TargetIsAdcRate(i: RateInput)
    requires ValidInput(i)
    ensures Target(i) == if i.mode == LowIfReal then i.rate else AdcRate(i.rate, Stages(i))
  {
    hide Stages, Pow2;
  }

  /** What a caller can check: in low-IF mode the rate itself, in baseband mode the rate times
      2, 4, 8, ... for some stage count the decimation setting allows, must lie between the
      slowest rate the PLL reaches and the ADC limit. */
  lemma RateAcceptedIff(i: RateInput)
    requires ValidInput(i)
    ensures PlanRate(i).Ok? <==>
            if i.mode == LowIfReal then AdcPll.RATE_MIN <= i.rate <= i.adcLimit else StageFits(i)
  {
    hide PlanRate, Target, Stages, AdcRate, StageFits;
    PlanSucceedsIff(i);
    TargetIsAdcRate(i);
    if i.mode == Baseband {
      if i.decimation >= 0 { ManualFitsIff(i); } else { AutoFitsIff(i); }
    }
  }
}
