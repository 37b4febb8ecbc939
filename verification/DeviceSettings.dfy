/** What the device's settings mean for the hardware: each result speaks of the device's own
    fields, so that a setting passed on wrongly would contradict it. */
module DeviceSettings {
  import opened Wrappers
  import opened FrequencyPlan
  import opened RatePlan
  import opened Cascade
  import opened Device
  import AdcPll
  import AdcOptimal
  import TunerPll
  import RealMath

  // ---------- the ADC rate and the decimation ----------

  // The rate asked of the ADC for a ratio, and what the search may answer.
  ghost predicate CheapestWithin(c: AdcPll.Config, target: real, noPll: bool) {
    && target > 0.0 && c.valid && RealMath.Abs(c.frequency - target) <= target * 0.00001
    && (c.m == 0.0 <==> noPll && exists d :: AdcOptimal.CrystalWorks(target, 0.00001, d))
    && (c.m != 0.0 ==> AdcOptimal.Runs(c, target, 0.00001, true))
    && (c.m != 0.0 ==>
          forall s: nat, n: nat, m: nat :: AdcOptimal.Works(target, 0.00001, s, n, m) && AdcOptimal.Searched(target, s) ==>
            (if c.fractional then 4.0 * c.m < m as real else c.m <= m as real))
  }

  lemma RunsWithin(c: AdcPll.Config, target: real)
    requires AdcOptimal.Runs(c, target, 0.00001, true)
    ensures c.valid && RealMath.Abs(c.frequency - target) <= target * 0.00001
  {
  }

  lemma FoundIsCheapest(target: real, noPll: bool)
    requires 0.0 < target <= 80_000_000.0 && AdcPll.Find(target, false, true, noPll, 0.00001).Ok?
    ensures CheapestWithin(AdcPll.Find(target, false, true, noPll, 0.00001).value, target, noPll)
  {
    hide AdcPll.Find, AdcOptimal.Runs, AdcOptimal.Works, AdcOptimal.CrystalWorks, AdcOptimal.Searched;
    var c := AdcPll.Find(target, false, true, noPll, 0.00001).value;
    AdcOptimal.CrystalIff(target, false, true, noPll, 0.00001);
    AdcOptimal.FoundSettings(target, false, true, noPll, 0.00001);
    if c.m != 0.0 {
      RunsWithin(c, target);
      forall s: nat, n: nat, m: nat | AdcOptimal.Works(target, 0.00001, s, n, m) && AdcOptimal.Searched(target, s)
        ensures if c.fractional then 4.0 * c.m < m as real else c.m <= m as real
      {
        AdcOptimal.NoSettingIsBetter(target, false, true, noPll, 0.00001, s, n, m);
      }
    }
  }

  // One user sample for two ADC samples, halved once more for each extra stage.
  predicate Decimated(mode: ConversionMode, ratio: nat, stages: nat) {
    if mode == LowIfReal then ratio == 1 && stages == 0 else stages <= 8 && ratio == 2 * Pow2(stages)
  }

  // An explicit setting is used as far as the limit allows.
  ghost predicate AsManyAsFit(rate: real, limit: real, setting: nat, stages: nat) {
    && stages <= setting
    && (stages > 0 ==> rate * (2 * Pow2(stages)) as real <= limit)
    && forall j: nat :: stages < j <= setting && j <= 8 ==> rate * (2 * Pow2(j)) as real > limit
  }

  // The automatic setting doubles while there is room and the margin is below 0.5 MHz.
  ghost predicate DoubledEnough(rate: real, limit: real, stages: nat) {
    && (stages < 8 ==> rate * Pow2(stages) as real * 4.0 > limit || rate * Pow2(stages) as real - rate >= 500_000.0)
    && forall j: nat :: j < stages ==> rate * Pow2(j) as real * 4.0 <= limit && rate * Pow2(j) as real - rate < 500_000.0
  }

  lemma AdcRateIs(rate: real, p: nat)
    ensures AdcRate(rate, p) == rate * (2 * Pow2(p)) as real
  {
  }

  lemma ManualFits(rate: real, limit: real, setting: nat, most: nat)
    requires most == if setting >= 8 then 8 else setting
    ensures ManualStages(rate, limit, most) <= 8 && AsManyAsFit(rate, limit, setting, ManualStages(rate, limit, most))
  {
    hide ManualStages, Pow2, AdcRate;
    ManualIsLargest(rate, limit, most);
    var p := ManualStages(rate, limit, most);
    AdcRateIs(rate, p);
    forall j: nat | p < j <= setting && j <= 8 ensures rate * (2 * Pow2(j)) as real > limit {
      AdcRateIs(rate, j);
    }
  }

  lemma ScaledIs(rate: real, p: nat)
    ensures Scaled(rate, p) == rate * Pow2(p) as real
  {
  }

  lemma AutoDoubles(rate: real, limit: real)
    ensures AutoStages(rate, limit, 0) <= 8 && DoubledEnough(rate, limit, AutoStages(rate, limit, 0))
  {
    hide AutoStages, Pow2, Scaled;
    AutoIsLeast(rate, limit, 0);
    var p := AutoStages(rate, limit, 0);
    ScaledIs(rate, p);
    forall j: nat | j < p ensures rate * Pow2(j) as real * 4.0 <= limit && rate * Pow2(j) as real - rate < 500_000.0 {
      ScaledIs(rate, j);
      assert KeepDoubling(rate, limit, j);
    }
  }

  lemma PlanSettings(i: RateInput)
    requires ValidInput(i) && PlanRate(i).Ok?
    ensures PlanRate(i).value.sizes.adcPerUser == AdcPerUser(i) && PlanRate(i).value.sizes.postDecimation == Stages(i)
    ensures i.rate * AdcPerUser(i) as real <= i.adcLimit
    ensures CheapestWithin(PlanRate(i).value.adc, i.rate * AdcPerUser(i) as real, i.noPll)
  {
    hide AdcPerUser, Stages, AdcPll.Find, BlocksPerTransfer, CheapestWithin;
    TargetIs(i);
    PlanParts(i);
    FoundIsCheapest(Target(i), i.noPll);
  }

  lemma DecimationSettings(i: RateInput)
    requires ValidInput(i)
    ensures Decimated(i.mode, AdcPerUser(i), Stages(i))
    ensures i.mode == Baseband && i.decimation >= 0 ==> AsManyAsFit(i.rate, i.adcLimit, i.decimation, Stages(i))
    ensures i.mode == Baseband && i.decimation < 0 ==> DoubledEnough(i.rate, i.adcLimit, Stages(i))
  {
    hide Pow2, ManualStages, AutoStages, AsManyAsFit, DoubledEnough;
    if i.mode == Baseband {
      if i.decimation >= 0 {
        ManualFits(i.rate, i.adcLimit, i.decimation, if i.decimation >= 8 then 8 else i.decimation);
      } else {
        AutoDoubles(i.rate, i.adcLimit);
      }
    }
  }

  /** With nothing pending, the decimation and the ADC rate are those the settings call for:
      the rate times the ratio is within the limit, an explicit decimation is used as far as the
      limit allows, the automatic one doubles until the margin is reached, and the ADC
      configuration is the cheapest one within ten parts per million. */
  lemma RateOfSettings(d: Device)
    requires d.Valid() && !d.changingRate && d.requestedRate != 0.0
    ensures d.adc.Some? && Decimated(d.mode, d.sizes.adcPerUser, d.sizes.postDecimation)
    ensures d.requestedRate * d.sizes.adcPerUser as real <= d.adcLimit
    ensures d.mode == Baseband && d.decimation >= 0 ==>
              AsManyAsFit(d.requestedRate, d.adcLimit, d.decimation, d.sizes.postDecimation)
    ensures d.mode == Baseband && d.decimation < 0 ==>
              DoubledEnough(d.requestedRate, d.adcLimit, d.sizes.postDecimation)
    ensures CheapestWithin(d.adc.value, d.requestedRate * d.sizes.adcPerUser as real, d.noPll)
  {
    hide Decimated, AsManyAsFit, DoubledEnough, CheapestWithin, PlanRate, Stages, AdcPerUser;
    var i := d.Input();
    PlanSettings(i);
    DecimationSettings(i);
    assert d.requestedRate * d.sizes.adcPerUser as real == i.rate * AdcPerUser(i) as real;
  }

  // ---------- the filter band ----------

  // In low-IF mode the cutoffs are off by the undersampling offset.
  function Shift(mode: ConversionMode, sideband: Sideband, undersampling: nat, fs: real): real {
    var offset := (undersampling - 1) as real * fs / 2.0;
    if mode == Baseband then 0.0 else if sideband == Upper then offset else -offset
  }

  // The band lies in the Nyquist zone that the undersampling setting selects.
  predicate WithinNyquist(b: Band, undersampling: nat, fs: real) {
    && b.nyquistLow == (undersampling - 1) as real * fs / 2.0 && b.nyquistHigh == b.nyquistLow + fs / 2.0
    && b.nyquistLow <= b.low && b.high <= b.nyquistHigh
  }

  // What the mixer makes of a signal x from the tuned frequency is in the band exactly when
  // the signal, shifted in low-IF mode, is within the cutoffs.
  predicate Wanted(d: Device, b: Band, x: real)
    requires d.adc.Some?
    reads d
  {
    b.low <= RealMath.Abs(d.requestedFrequency + x - d.LoTarget()) <= b.high
    <==> d.bandLow <= x + Shift(d.mode, d.sideband, d.undersampling, d.AdcFrequency()) <= d.bandHigh
  }

  lemma BandIsWithin(d: Device)
    requires d.adc.Some?
    ensures WithinNyquist(d.Band(), d.undersampling, d.AdcFrequency())
  {
  }

  lemma ShiftIs(sideband: Sideband, undersampling: nat, fs: real)
    ensures Shift(LowIfReal, sideband, undersampling, fs) ==
              if sideband == Upper then UndersamplingOffset(undersampling, fs) else -UndersamplingOffset(undersampling, fs)
  {
  }

  lemma BandValues(mode: ConversionMode, sideband: Sideband, undersampling: nat, fs: real, rf: real,
                   x: real, low: real, high: real)
    requires undersampling >= 1 && fs > 0.0 && Unmirrored(mode, sideband, fs, x)
    ensures var b := WantedBand(mode, sideband, undersampling, fs, low, high);
            b.low <= RealMath.Abs(rf + x - (rf + LoOffset(mode, sideband, undersampling, fs))) <= b.high
            <==> low <= x + Shift(mode, sideband, undersampling, fs) <= high
  {
    hide WantedBand, LoOffset, Unmirrored, UndersamplingOffset, RealMath.Abs;
    if mode == Baseband {
      BandInBaseband(sideband, undersampling, fs, rf, x, low, high);
    } else {
      hide Shift;
      BandInLowIf(sideband, undersampling, fs, rf, x, low, high);
      ShiftIs(sideband, undersampling, fs);
    }
  }

  /** The band asked of the filter, in the device's own settings. */
  lemma BandOfSettings(d: Device, x: real)
    requires d.adc.Some? && d.AdcFrequency() > 0.0 && d.undersampling >= 1
    requires Unmirrored(d.mode, d.sideband, d.AdcFrequency(), x)
    ensures Wanted(d, d.Band(), x)
  {
    hide WantedBand, LoOffset, Unmirrored, Shift, RealMath.Abs;
    BandValues(d.mode, d.sideband, d.undersampling, d.AdcFrequency(), d.requestedFrequency, x, d.bandLow, d.bandHigh);
  }

  lemma RatePositive(d: Device)
    requires d.Valid() && !d.changingRate && d.requestedRate != 0.0
    ensures d.adc.Some? && d.AdcFrequency() > 0.0 && d.undersampling >= 1
  {
    hide CheapestWithin, Decimated, AsManyAsFit, DoubledEnough, PlanRate;
    RateOfSettings(d);
    FrequencyPositive(d.adc.value, d.requestedRate * d.sizes.adcPerUser as real, d.noPll);
  }

  lemma FrequencyPositive(c: AdcPll.Config, target: real, noPll: bool)
    requires CheapestWithin(c, target, noPll)
    ensures c.frequency > 0.0
  {
    hide AdcOptimal.Runs, AdcOptimal.Works, AdcOptimal.CrystalWorks;
  }

  // The tuner holds the row's five settings.
  predicate Holds(chip: Option<Bandpass>, row: Bandpass) {
    && chip.Some? && chip.value.hpf == row.hpf && chip.value.narrow == row.narrow && chip.value.coarse == row.coarse
    && chip.value.fine == row.fine && chip.value.q == row.q
  }

  /** With nothing pending and the table not replaced, the tuner holds the table's choice for
      a band within the Nyquist zone into which the mixer brings exactly the signals between
      the cutoffs. */
  lemma FilterOfSettings(d: Device) returns (b: Band)
    requires d.Valid() && !d.changingRate && !d.changingBandpass && !d.tableReplaced && d.requestedRate != 0.0
    ensures d.adc.Some? && Holds(d.chipBandpass, d.select(d.table, b)) && Holds(d.bandpass, d.select(d.table, b))
    ensures WithinNyquist(b, d.undersampling, d.AdcFrequency())
    ensures forall x :: Unmirrored(d.mode, d.sideband, d.AdcFrequency(), x) ==> Wanted(d, b, x)
  {
    hide WithinNyquist, Wanted, Unmirrored, WantedBand, PlanRate;
    RatePositive(d);
    b := d.Band();
    BandIsWithin(d);
    forall x | Unmirrored(d.mode, d.sideband, d.AdcFrequency(), x) ensures Wanted(d, b, x) {
      BandOfSettings(d, x);
    }
  }

  // ---------- where signals end up, and what is reported ----------

  /** In baseband mode a signal x from the tuned frequency is received x from a quarter of the
      ADC rate, with the oscillator the settings call for and the inversion decided from them. */
  lemma LandsAsSet(d: Device, x: real)
    requires d.adc.Some? && d.AdcFrequency() > 0.0 && d.undersampling >= 1 && d.mode == Baseband
    requires -(d.AdcFrequency() / 4.0) < x < d.AdcFrequency() / 4.0
    ensures Received(d.requestedFrequency + x, d.LoTarget(), d.AdcFrequency(),
                     (d.sideband == Lower) != (d.undersampling % 2 == 0))
            == d.AdcFrequency() / 4.0 + x
  {
    LandsAtQuarter(d.requestedFrequency, x, d.AdcFrequency(), d.sideband, d.undersampling,
                   InvertedSpectrum(d.sideband, d.undersampling));
    hide Received, LoOffset;
  }

  lemma CornersSeen(mode: ConversionMode, sideband: Sideband, undersampling: nat, fs: real, x: real, lower: real, upper: real)
    requires undersampling >= 1 && fs > 0.0 && Unmirrored(mode, sideband, fs, x)
    ensures var o := LoOffset(mode, sideband, undersampling, fs);
            var c := if mode == LowIfReal then 0.0 else RealMath.Abs(o);
            lower <= RealMath.Abs(x - o) <= upper <==>
              if sideband == Upper then lower - c <= x + Shift(mode, sideband, undersampling, fs) <= upper - c
              else c - upper <= x + Shift(mode, sideband, undersampling, fs) <= c - lower
  {
    EdgeNotNegative(undersampling - 1, fs);
    hide Edge;
    ShiftIs(sideband, undersampling, fs);
  }

  /** The reported cutoffs are those of the filter: the signals between them are the ones the
      mixer brings between the filter's corners. */
  lemma ReportedBand(d: Device, x: real)
    requires d.adc.Some? && d.bandpass.Some? && !d.changingRate && !d.changingBandpass
    requires d.AdcFrequency() > 0.0 && d.undersampling >= 1 && Unmirrored(d.mode, d.sideband, d.AdcFrequency(), x)
    ensures d.bandpass.value.lower <= RealMath.Abs(d.requestedFrequency + x - d.LoTarget()) <= d.bandpass.value.upper
            <==> d.ActualBand().0 <= x + Shift(d.mode, d.sideband, d.undersampling, d.AdcFrequency()) <= d.ActualBand().1
  {
    CornersSeen(d.mode, d.sideband, d.undersampling, d.AdcFrequency(), x, d.bandpass.value.lower, d.bandpass.value.upper);
    hide LoOffset, Shift, Unmirrored, RealMath.Abs;
    assert d.requestedFrequency + x - d.LoTarget() == x - LoOffset(d.mode, d.sideband, d.undersampling, d.AdcFrequency());
  }

  /** What is pending is reported as zero. */
  lemma PendingReportsZero(d: Device)
    ensures d.changingRate || d.adc.None? ==>
              d.ActualSampleRate() == 0.0 && d.ActualFrequency() == 0.0 && d.ActualBand() == (0.0, 0.0)
    ensures d.changingFreq || d.tuner.None? ==> d.ActualFrequency() == 0.0
    ensures d.changingBandpass || d.bandpass.None? ==> d.ActualBand() == (0.0, 0.0)
  {
    hide LoOffset;
  }
}
