/** The device's configuration: requested settings, pending-change flags, and the derived
    state that pg2sdr_apply_changes programs. */
module Device {
  import opened Wrappers
  import opened FrequencyPlan
  import opened RatePlan
  import AdcPll
  import TunerPll
  import RealMath

  // One row of the bandpass table, as the tuner sees it.
  datatype Bandpass = Bandpass(hpf: nat, narrow: nat, coarse: nat, fine: nat, q: nat, lower: real, upper: real)

  predicate SameBandpass(a: Bandpass, b: Bandpass) {
    a.hpf == b.hpf && a.narrow == b.narrow && a.coarse == b.coarse && a.fine == b.fine && a.q == b.q
  }

  // The wanted IF band and the Nyquist zone.
  datatype Band = Band(low: real, high: real, nyquistLow: real, nyquistHigh: real)

  function WantedBand(mode: ConversionMode, sideband: Sideband, undersampling: nat, fs: real, low: real, high: real): Band {
    var center := if mode == LowIfReal then 0.0 else RealMath.Abs(LoOffset(mode, sideband, undersampling, fs));
    var nl := UndersamplingOffset(undersampling, fs);
    var nh := nl + fs / 2.0;
    var l := if sideband == Upper then center + low else center - high;
    var h := if sideband == Upper then center + high else center - low;
    Band(if l < nl then nl else l, if h > nh then nh else h, nl, nh)
  }

  // Signals the mixer does not mirror: around the tuned frequency in baseband mode, and on
  // the side the sideband selects in low-IF mode.
  predicate Unmirrored(mode: ConversionMode, sideband: Sideband, fs: real, d: real) {
    if mode == Baseband then -(fs / 4.0) < d < fs / 4.0
    else if sideband == Upper then 0.0 < d < fs / 2.0
    else -(fs / 2.0) < d < 0.0
  }

  // A signal d from the tuned frequency is inside the cutoffs exactly when the frequency it
  // is mixed down to is inside the band asked of the filter.
  predicate BandMeans(mode: ConversionMode, sideband: Sideband, undersampling: nat, fs: real, rf: real,
                      d: real, low: real, high: real)
  {
    var b := WantedBand(mode, sideband, undersampling, fs, low, high);
    var f := IntermediateFrequency(rf + d, rf + LoOffset(mode, sideband, undersampling, fs));
    low <= d <= high <==> b.low <= f <= b.high
  }

  // In low-IF mode the cutoffs are taken from the LO instead of the tuned frequency, which
  // is one undersampling offset away from it.
  lemma BandInLowIf(sideband: Sideband, undersampling: nat, fs: real, rf: real, d: real, low: real, high: real)
    requires undersampling >= 1 && fs > 0.0 && Unmirrored(LowIfReal, sideband, fs, d)
    ensures var shift := if sideband == Upper then UndersamplingOffset(undersampling, fs)
                         else -UndersamplingOffset(undersampling, fs);
            BandMeans(LowIfReal, sideband, undersampling, fs, rf, d, low, high)
            <==> (low <= d <= high <==> low <= d + shift <= high)
  {
    EdgeNotNegative(undersampling - 1, fs);
    hide Edge;
  }

  lemma BandInBaseband(sideband: Sideband, undersampling: nat, fs: real, rf: real, d: real, low: real, high: real)
    requires undersampling >= 1 && fs > 0.0 && Unmirrored(Baseband, sideband, fs, d)
    ensures BandMeans(Baseband, sideband, undersampling, fs, rf, d, low, high)
  {
    EdgeNotNegative(undersampling - 1, fs);
    hide Edge;
  }

  lemma OffsetIsZeroIff(undersampling: nat, fs: real)
    requires undersampling >= 1 && fs > 0.0
    ensures UndersamplingOffset(undersampling, fs) == 0.0 <==> undersampling == 1
  {
    if undersampling > 1 {
      var z := undersampling - 1;
      RealMath.MulLessEq(1.0, z as real, fs);
    }
  }

  /** Mapping the requested cutoffs to the IF keeps their meaning for every signal and every
      pair of cutoffs exactly in baseband mode or in the first zone. */
  lemma BandIsWantedIff(mode: ConversionMode, sideband: Sideband, undersampling: nat, fs: real, rf: real)
    requires undersampling >= 1 && fs > 0.0
    ensures (forall d, low, high | Unmirrored(mode, sideband, fs, d) && low <= high ::
               BandMeans(mode, sideband, undersampling, fs, rf, d, low, high))
            <==> mode == Baseband || undersampling == 1
  {
    hide BandMeans, UndersamplingOffset;
    OffsetIsZeroIff(undersampling, fs);
    if mode == Baseband {
      forall d, low, high | Unmirrored(mode, sideband, fs, d) && low <= high
        ensures BandMeans(mode, sideband, undersampling, fs, rf, d, low, high)
      {
        BandInBaseband(sideband, undersampling, fs, rf, d, low, high);
      }
    } else if undersampling == 1 {
      forall d, low, high | Unmirrored(mode, sideband, fs, d) && low <= high
        ensures BandMeans(mode, sideband, undersampling, fs, rf, d, low, high)
      {
        BandInLowIf(sideband, undersampling, fs, rf, d, low, high);
      }
    } else {
      var d := if sideband == Upper then fs / 4.0 else -(fs / 4.0);
      BandInLowIf(sideband, undersampling, fs, rf, d, d, d);
      assert !BandMeans(mode, sideband, undersampling, fs, rf, d, d, d);
    }
  }

  // Low-IF, second zone, 10 MHz: cutoffs 1 to 2 MHz give an inverted band, and a signal
  // between them is mixed to 6.5 MHz.
  lemma LowIfBandWitness(rf: real)
    ensures var b := WantedBand(LowIfReal, Upper, 2, 10000000.0, 1000000.0, 2000000.0);
            b.low == 5000000.0 && b.high == 2000000.0
    ensures IntermediateFrequency(rf + 1500000.0, rf + LoOffset(LowIfReal, Upper, 2, 10000000.0)) == 6500000.0
  {
  }

  class Device {
    // Fixed by the hardware, and the choice of a table row for a band.
    const samplesPerBlock: nat
    const bytesPerBlock: nat
    const xtal: real
    const noPll: bool
    const select: (seq<Bandpass>, Band) -> Bandpass

    var streaming: bool

    // Requested settings.
    var mode: ConversionMode
    var adcLimit: real
    var requestedRate: real
    var decimation: int
    var undersampling: nat
    var bufferSize: nat
    var sideband: Sideband
    var requestedFrequency: real
    var bandLow: real
    var bandHigh: real
    var table: seq<Bandpass>

    // Pending changes.
    var changingRate: bool
    var changingFreq: bool
    var changingBandpass: bool

    // Derived state. None stands for an invalid configuration.
    var adc: Option<AdcPll.Config>
    var sizes: Sizes
    var tuner: Option<TunerPll.PllConfig>
    var bandpass: Option<Bandpass>

    // What the tuner chip was last told, if known, and whether the table was replaced
    // since the last filter choice.
    ghost var chipPll: Option<TunerPll.PllConfig>
    ghost var chipBandpass: Option<Bandpass>
    ghost var tableReplaced: bool

    // ---------- what the settings call for ----------

    predicate InRange()
      reads `requestedRate, `adcLimit, `decimation, `undersampling, `bufferSize, `bandLow, `bandHigh
    {
      && samplesPerBlock > 0 && bytesPerBlock > 0 && xtal > 0.0
      && (requestedRate == 0.0 || 1000.0 < requestedRate <= 100000000.0)
      && 0.0 < adcLimit <= AdcPll.RATE_MAX
      && decimation >= DECIMATION_AUTO && undersampling >= 1 && bufferSize >= 1
      && bandLow <= bandHigh
    }

    function Input(): (i: RateInput)
      requires InRange() && requestedRate != 0.0
      reads `mode, `adcLimit, `requestedRate, `decimation, `undersampling, `bufferSize, `bandLow, `bandHigh
      ensures ValidInput(i)
    {
      RateInput(mode, requestedRate, decimation, adcLimit, bufferSize, samplesPerBlock, bytesPerBlock, noPll)
    }

    function AdcFrequency(): real
      requires adc.Some?
      reads `adc
    {
      adc.value.frequency
    }

    function LoTarget(): real
      requires adc.Some?
      reads `adc, `requestedFrequency, `mode, `sideband, `undersampling
    {
      requestedFrequency + LoOffset(mode, sideband, undersampling, AdcFrequency())
    }

    function Band(): Band
      requires adc.Some?
      reads `adc, `mode, `sideband, `undersampling, `bandLow, `bandHigh
    {
      WantedBand(mode, sideband, undersampling, AdcFrequency(), bandLow, bandHigh)
    }

    // ---------- the invariant ----------

    // The ADC and the sizes are what a fresh computation gives.
    predicate RateOnTarget()
      requires InRange()
      reads `mode, `adcLimit, `requestedRate, `decimation, `undersampling, `bufferSize, `bandLow, `bandHigh, `adc, `sizes
    {
      requestedRate != 0.0 ==> adc.Some? && PlanRate(Input()) == Ok(Plan(adc.value, sizes))
    }

    // The tuner is programmed for the requested frequency plus the current offset.
    predicate TunerOnTarget()
      requires xtal > 0.0
      reads `adc, `requestedFrequency, `tuner, `mode, `sideband, `undersampling
    {
      adc.Some? && requestedFrequency != 0.0 ==>
        tuner.Some? && TunerPll.Pll(LoTarget(), xtal).Ok? &&
        TunerPll.SameFields(tuner.value, TunerPll.Pll(LoTarget(), xtal).value)
    }

    // The filter is the table's choice for the current band.
    predicate FilterOnBand()
      reads `adc, `mode, `sideband, `undersampling, `bandLow, `bandHigh, `table, `bandpass
    {
      adc.Some? ==> bandpass.Some? && SameBandpass(bandpass.value, select(table, Band()))
    }

    // The configuration the driver believes in is the one the chip holds, and came from a search.
    ghost predicate PllKnown()
      requires xtal > 0.0
      reads `tuner, `chipPll
    {
      && (tuner.Some? ==> chipPll.Some? && TunerPll.SameFields(chipPll.value, tuner.value))
      && (tuner.Some? ==> exists f :: TunerPll.Pll(f, xtal) == Ok(tuner.value))
    }

    ghost predicate BandKnown()
      reads `bandpass, `chipBandpass, `tableReplaced
    {
      && (bandpass.Some? ==> chipBandpass.Some? && SameBandpass(chipBandpass.value, bandpass.value))
      && (tableReplaced ==> bandpass.None?)
    }

    /** Derived state is current unless the flag that guards it is set. The filter has one
        more exception: the table was replaced since it was chosen. */
    ghost predicate Valid()
      reads this
    {
      && InRange()
      && (!changingRate ==> RateOnTarget())
      && (!changingRate && !changingFreq ==> TunerOnTarget())
      && (!changingRate && !changingBandpass && !tableReplaced ==> FilterOnBand())
      && PllKnown() && BandKnown()
    }

    constructor (samplesPerBlock: nat, bytesPerBlock: nat, xtal: real, firmware: nat,
                 table: seq<Bandpass>, select: (seq<Bandpass>, Band) -> Bandpass)
      requires samplesPerBlock > 0 && bytesPerBlock > 0 && xtal > 0.0
      ensures Valid() && !streaming && !changingRate && !changingFreq && !changingBandpass
      ensures adc.None? && tuner.None? && bandpass.None? && requestedRate == 0.0 && requestedFrequency == 0.0
      ensures mode == Baseband && sideband == Lower && adcLimit == 28000000.0 && decimation == -1 && undersampling == 1
      ensures bufferSize == 262144 && bandLow == -100000000.0 && bandHigh == 100000000.0 && this.table == table
      ensures this.samplesPerBlock == samplesPerBlock && this.bytesPerBlock == bytesPerBlock && this.xtal == xtal
      ensures noPll <==> firmware >= 0x00090600
    {
      this.samplesPerBlock, this.bytesPerBlock, this.xtal := samplesPerBlock, bytesPerBlock, xtal;
      this.noPll := firmware >= 0x00090600;
      this.select, this.table := select, table;
      streaming, mode, adcLimit, requestedRate := false, Baseband, 28000000.0, 0.0;
      decimation, undersampling, bufferSize := DECIMATION_AUTO, 1, 262144;
      sideband, requestedFrequency := Lower, 0.0;
      bandLow, bandHigh := -100000000.0, 100000000.0;
      changingRate, changingFreq, changingBandpass := false, false, false;
      adc, tuner, bandpass, sizes := None, None, None, Sizes(0, 0, 0, 0);
      chipPll, chipBandpass, tableReplaced := None, None, false;
    }

    // ---------- setters ----------

    method SetConversionMode(m: Option<ConversionMode>) returns (r: Result<(), Error>)
      requires Valid()
      modifies `mode, `changingRate, `changingFreq, `changingBandpass
      ensures Valid()
      ensures r.Err? ==> unchanged(this)
      ensures r == if m == Some(old(mode)) then Ok(()) else if streaming then Err(BadState)
                   else if m.None? then Err(BadArgument) else Ok(())
      ensures r.Ok? ==> Some(mode) == m
      ensures mode == old(mode) ==> unchanged(this)
      ensures mode != old(mode) ==> changingRate && changingFreq && changingBandpass
    {
      if m != Some(mode) {
        if streaming { return Err(BadState); }
        if m.None? { return Err(BadArgument); }
        mode := m.value;
        changingRate, changingFreq, changingBandpass := true, true, true;
      }
      return Ok(());
    }

    method SetBufferSize(size: nat) returns (r: Result<(), Error>)
      requires Valid()
      modifies `bufferSize, `changingRate
      ensures Valid()
      ensures r.Err? ==> unchanged(this)
      ensures r == if size < 1 then Err(BadArgument) else if size != old(bufferSize) && streaming then Err(BadState) else Ok(())
      ensures r.Ok? ==> bufferSize == size && changingRate == (old(changingRate) || size != old(bufferSize))
    {
      if size < 1 { return Err(BadArgument); }
      if bufferSize != size {
        if streaming { return Err(BadState); }
        bufferSize, changingRate := size, true;
      }
      return Ok(());
    }

    method SetSampleRate(rate: real) returns (r: Result<(), Error>)
      requires Valid()
      modifies `requestedRate, `changingRate
      ensures Valid()
      ensures r.Err? ==> unchanged(this)
      ensures r.Ok? <==> 1000.0 < rate <= 100000000.0
      ensures r.Ok? ==> requestedRate == rate && changingRate == (old(changingRate) || rate != old(requestedRate))
    {
      if rate <= 1000.0 || rate > 100000000.0 { return Err(BadArgument); }
      if rate != requestedRate {
        requestedRate, changingRate := rate, true;
      }
      return Ok(());
    }

    method SetDecimationMode(d: int) returns (r: Result<(), Error>)
      requires Valid()
      modifies `decimation, `changingRate
      ensures Valid()
      ensures r.Err? ==> unchanged(this)
      ensures r.Ok? <==> d >= DECIMATION_AUTO
      ensures r.Ok? ==> decimation == d && changingRate == (old(changingRate) || d != old(decimation))
    {
      if d < 0 && d != DECIMATION_AUTO { return Err(BadArgument); }
      if decimation != d {
        decimation, changingRate := d, true;
      }
      return Ok(());
    }

    method SetUndersamplingMode(u: nat) returns (r: Result<(), Error>)
      requires Valid()
      modifies `undersampling, `changingRate
      ensures Valid()
      ensures r.Err? ==> unchanged(this)
      ensures r.Ok? <==> u >= 1
      ensures r.Ok? ==> undersampling == u && changingRate == (old(changingRate) || u != old(undersampling))
    {
      if u < 1 { return Err(BadArgument); }
      if undersampling != u {
        undersampling, changingRate := u, true;
      }
      return Ok(());
    }

    method SetAdcLimit(limit: real) returns (r: Result<(), Error>)
      requires Valid()
      modifies `adcLimit, `changingRate
      ensures Valid()
      ensures r.Err? ==> unchanged(this)
      ensures r.Ok? <==> 0.0 < limit <= 80000000.0
      ensures r.Ok? ==> adcLimit == limit && changingRate == (old(changingRate) || limit != old(adcLimit))
    {
      if limit <= 0.0 || limit > 80000000.0 { return Err(BadArgument); }
      if adcLimit != limit {
        adcLimit, changingRate := limit, true;
      }
      return Ok(());
    }

    method SetSideband(s: Option<Sideband>) returns (r: Result<(), Error>)
      requires Valid()
      modifies `sideband, `changingFreq, `changingBandpass
      ensures Valid()
      ensures r.Err? ==> unchanged(this)
      ensures r.Ok? <==> s.Some?
      ensures r.Ok? ==> Some(sideband) == s
      ensures sideband == old(sideband) ==> unchanged(this)
      ensures sideband != old(sideband) ==> changingFreq && changingBandpass
    {
      if s.None? { return Err(BadArgument); }
      if s.value != sideband {
        sideband, changingFreq, changingBandpass := s.value, true, true;
      }
      return Ok(());
    }

    method SetFrequency(f: real)
      requires Valid()
      modifies `requestedFrequency, `changingFreq
      ensures Valid() && requestedFrequency == f
      ensures changingFreq == (old(changingFreq) || f != old(requestedFrequency))
    {
      if f != requestedFrequency {
        requestedFrequency, changingFreq := f, true;
      }
    }

    method SetBandpass(a: real, b: real)
      requires Valid()
      modifies `bandLow, `bandHigh, `changingBandpass
      ensures Valid() && bandLow == (if a > b then b else a) && bandHigh == (if a > b then a else b)
      ensures changingBandpass == (old(changingBandpass) || bandLow != old(bandLow) || bandHigh != old(bandHigh))
    {
      hide PlanRate, WantedBand, TunerPll.Pll, LoOffset;
      var low, high := a, b;
      if low > high { low, high := high, low; }
      if low != bandLow || high != bandHigh {
        bandLow, bandHigh, changingBandpass := low, high, true;
      }
    }

    // Replacing the table forgets the current row without marking the filter as pending.
    method SetBandpassTable(t: seq<Bandpass>) returns (r: Result<(), Error>)
      requires Valid()
      modifies `table, `bandpass, `tableReplaced
      ensures Valid()
      ensures r.Err? ==> unchanged(this)
      ensures r.Ok? <==> t != []
      ensures r.Ok? ==> table == t && bandpass.None? && tableReplaced
    {
      if t == [] { return Err(BadArgument); }
      table, bandpass, tableReplaced := t, None, true;
      return Ok(());
    }

    // ---------- applying ----------

    // The search and the size computation, with the decimation loops.
    method ComputePlan() returns (r: Result<Plan, Error>)
      requires InRange() && requestedRate != 0.0
      ensures r == PlanRate(Input())
    {
      hide AdcPll.Find, AutoStages, ManualStages, BlocksPerTransfer, Target, AdcPerUser;
      var i := Input();
      TargetAtLeastRate(i);
      TargetIs(i);
      var post := 0;
      if mode == Baseband {
        if decimation >= 0 {
          post := ChooseManual(requestedRate, adcLimit, decimation);
        } else {
          post := ChooseAuto(requestedRate, adcLimit);
        }
      }
      assert post == Stages(i);
      hide Stages;
      var target := requestedRate * AdcPerUser(i) as real;
      assert target == Target(i);
      if target > adcLimit { return Err(AdcRateRange); }
      var found := AdcPll.FindDivisors(target, false, true, noPll, EPSILON);
      if found.Err? {
        assert PlanRate(i).Err?;
        return Err(AdcRateRange);
      }
      return Ok(Plan(found.value, SizesFor(i)));
    }

    method ApplyRateChange() returns (r: Result<(), Error>)
      requires InRange() && changingRate
      modifies `adc, `sizes
      ensures streaming ==> r == Err(BadState)
      ensures !streaming && requestedRate == 0.0 ==> r.Ok? && adc == old(adc) && sizes == old(sizes)
      ensures !streaming && requestedRate != 0.0 ==> r.Ok? == PlanRate(Input()).Ok?
      ensures r.Ok? ==> RateOnTarget()
      ensures r.Err? ==> adc == old(adc) && sizes == old(sizes) && (r.error == BadState <==> streaming)
    {
      hide PlanRate;
      if streaming { return Err(BadState); }
      if requestedRate == 0.0 { return Ok(()); }
      var plan := ComputePlan();
      if plan.Err? { return Err(AdcRateRange); }
      adc, sizes := Some(plan.value.adc), plan.value.sizes;
      return Ok(());
    }

    // Programs the synthesiser, if the hardware does its part; a failure leaves the chip in
    // an unknown state.
    method StartPll(c: TunerPll.PllConfig, works: bool)
      modifies `chipPll
      ensures chipPll == if works then Some(c) else None
    {
      if works { chipPll := Some(c); } else { chipPll := None; }
    }

    method ApplyFreqChange(works: bool) returns (r: Result<(), Error>)
      requires InRange() && PllKnown()
      modifies `tuner, `chipPll
      ensures PllKnown() && (r.Ok? ==> TunerOnTarget())
      ensures requestedFrequency == 0.0 || adc.None? ==> r.Ok? && unchanged(this)
      ensures r == Err(TunerPllRange) <==>
              requestedFrequency != 0.0 && adc.Some? && TunerPll.Pll(LoTarget(), xtal).Err?
      ensures (&& old(tuner).Some? && adc.Some? && TunerPll.Pll(LoTarget(), xtal).Ok?
               && TunerPll.SameFields(TunerPll.Pll(LoTarget(), xtal).value, old(tuner).value)) ==>
                r.Ok? && unchanged(this)
      ensures r.Err? ==> r.error == TunerPllRange || r.error == TunerFailed
      ensures r.Err? && r.error == TunerPllRange ==> tuner == old(tuner) && chipPll == old(chipPll)
      ensures r.Err? && r.error == TunerFailed ==> tuner.None? && !works
    {
      hide TunerPll.Pll, LoOffset;
      if requestedFrequency == 0.0 { return Ok(()); }
      if adc.None? { return Ok(()); }
      var target := LoTarget();
      var found := TunerPll.FindPllParameters(target, xtal);
      if found.Err? { return Err(TunerPllRange); }
      if tuner.Some? && TunerPll.SameFields(found.value, tuner.value) { return Ok(()); }
      StartPll(found.value, works);
      if !works {
        tuner := None;
        return Err(TunerFailed);
      }
      tuner := Some(found.value);
      return Ok(());
    }

    method SetTunerBandpass(b: Bandpass, works: bool)
      modifies `chipBandpass
      ensures chipBandpass == if works then Some(b) else None
    {
      if works { chipBandpass := Some(b); } else { chipBandpass := None; }
    }

    method ApplyBandpassChange(works: bool) returns (r: Result<(), Error>)
      requires BandKnown() && !changingRate
      modifies `bandpass, `chipBandpass, `tableReplaced
      ensures BandKnown()
      ensures r.Ok? ==> FilterOnBand()
      ensures adc.Some? && old(bandpass).Some? && SameBandpass(select(table, Band()), old(bandpass).value) ==>
                r.Ok? && unchanged(this)
      ensures r.Ok? && adc.Some? ==> !tableReplaced
      ensures r.Ok? && adc.None? ==> bandpass == old(bandpass) && tableReplaced == old(tableReplaced)
      ensures r.Err? ==> r.error == TunerFailed && bandpass.None? && !works
    {
      hide WantedBand;
      if adc.None? || changingRate { return Ok(()); }
      var settings := select(table, Band());
      if bandpass.Some? && SameBandpass(settings, bandpass.value) {
        return Ok(());
      }
      SetTunerBandpass(settings, works);
      tableReplaced := false;
      if !works {
        bandpass := None;
        return Err(TunerFailed);
      }
      bandpass := Some(settings);
      return Ok(());
    }

    // The plan and the synthesiser settings exist for what is pending.
    ghost predicate Reachable(rate: bool, freq: bool)
      requires InRange()
      reads this
    {
      && (rate && requestedRate != 0.0 ==> PlanRate(Input()).Ok?)
      && ((rate || freq) && requestedFrequency != 0.0 && adc.Some? ==> TunerPll.Pll(LoTarget(), xtal).Ok?)
    }

    method RateStep() returns (r: Result<(), Error>)
      requires Valid()
      modifies `adc, `sizes, `changingRate, `changingFreq, `changingBandpass
      ensures Valid()
      ensures r == Err(BadState) <==> streaming && old(changingRate)
      ensures r.Err? ==> unchanged(this) && changingRate
      ensures streaming ==> unchanged(this)
      ensures old(changingRate) && !streaming ==> (r.Ok? <==> (requestedRate != 0.0 ==> PlanRate(Input()).Ok?))
      ensures r.Ok? ==> !changingRate && (old(changingRate) ==> changingFreq && changingBandpass)
      ensures !old(changingRate) ==> r.Ok? && unchanged(this)
    {
      hide InRange, RateOnTarget, TunerOnTarget, FilterOnBand, PllKnown, BandKnown, PlanRate;
      if !changingRate { return Ok(()); }
      r := ApplyRateChange();
      if r.Ok? {
        changingRate, changingFreq, changingBandpass := false, true, true;
      }
    }

    method FreqStep(works: bool) returns (r: Result<(), Error>)
      requires Valid() && !changingRate
      modifies `tuner, `chipPll, `changingFreq
      ensures Valid()
      ensures r.Err? ==> changingFreq && r.error != BadState
      ensures r.Ok? ==> !changingFreq
      ensures !old(changingFreq) ==> r.Ok? && unchanged(this)
      ensures xtal > 0.0 && old(changingFreq) && works ==>
                (r.Ok? <==> (requestedFrequency != 0.0 && adc.Some? ==> TunerPll.Pll(LoTarget(), xtal).Ok?))
    {
      hide InRange, RateOnTarget, TunerOnTarget, FilterOnBand, PllKnown, BandKnown;
      if !changingFreq { return Ok(()); }
      RangeFacts();
      r := ApplyFreqChange(works);
      if r.Ok? {
        changingFreq := false;
      }
    }

    lemma RangeFacts()
      requires InRange()
      ensures xtal > 0.0
    {
    }

    method BandStep(works: bool) returns (r: Result<(), Error>)
      requires Valid() && !changingRate
      modifies `bandpass, `chipBandpass, `tableReplaced, `changingBandpass
      ensures Valid()
      ensures r.Err? ==> changingBandpass && r.error != BadState && !works
      ensures r.Ok? ==> !changingBandpass
      ensures r.Ok? && old(changingBandpass) ==> FilterOnBand()
      ensures !old(changingBandpass) ==> r.Ok? && unchanged(this)
    {
      hide InRange, RateOnTarget, TunerOnTarget, FilterOnBand, PllKnown, BandKnown;
      if !changingBandpass { return Ok(()); }
      r := ApplyBandpassChange(works);
      if r.Ok? {
        changingBandpass := false;
      }
    }

    /** Applies whatever is pending. BAD_STATE is returned exactly when a rate change is
        pending while streaming, and then nothing at all has changed. While the hardware works,
        nothing else fails but an ADC rate or an oscillator frequency that cannot be reached. */
    method ApplyChanges(pllWorks: bool, filterWorks: bool) returns (r: Result<(), Error>)
      requires Valid()
      modifies `adc, `sizes, `tuner, `bandpass, `chipPll, `chipBandpass, `tableReplaced,
               `changingRate, `changingFreq, `changingBandpass
      ensures Valid()
      ensures r == Err(BadState) <==> old(streaming) && old(changingRate)
      ensures r == Err(BadState) ==> unchanged(this)
      ensures r.Ok? ==> !changingRate && !changingFreq && !changingBandpass
      ensures r.Err? ==> changingRate || changingFreq || changingBandpass
      ensures !old(changingRate) && !old(changingFreq) && !old(changingBandpass) ==> r.Ok? && unchanged(this)
      ensures old(streaming) ==> adc == old(adc) && sizes == old(sizes)
      ensures r.Ok? && old(changingBandpass || changingRate) ==> FilterOnBand()
      ensures InRange() && pllWorks && filterWorks ==>
                (r.Ok? <==> !(old(streaming) && old(changingRate)) && Reachable(old(changingRate), old(changingFreq)))
    {
      hide Valid, FilterOnBand, PlanRate, TunerPll.Pll, LoTarget, Input;
      r := RateStep();
      if r.Err? { return; }
      r := FreqStep(pllWorks);
      if r.Err? { return; }
      r := BandStep(filterWorks);
    }

    // ---------- streaming ----------

    // Everything is current when streaming starts. Resources may run out.
    method StartStreaming(pllWorks: bool, filterWorks: bool, resources: bool) returns (started: bool)
      requires Valid()
      modifies `streaming, `adc, `sizes, `tuner, `bandpass, `chipPll, `chipBandpass, `tableReplaced,
               `changingRate, `changingFreq, `changingBandpass
      ensures Valid()
      ensures old(streaming) ==> !started && unchanged(this)
      ensures started ==> streaming
      ensures !old(streaming) ==>
                (started <==> resources && adc.Some? && !changingRate && !changingFreq && !changingBandpass)
      ensures InRange() && !old(streaming) && pllWorks && filterWorks && Reachable(old(changingRate), old(changingFreq)) ==>
                (started <==> resources && adc.Some?)
    {
      hide InRange, RateOnTarget, TunerOnTarget, FilterOnBand, PllKnown, BandKnown;
      if streaming { return false; }
      var r := ApplyChanges(pllWorks, filterWorks);
      if r.Err? { return false; }
      if adc.None? { return false; }
      if !resources { return false; }
      streaming := true;
      return true;
    }

    method StopStreaming()
      requires Valid()
      modifies `streaming
      ensures Valid() && !streaming
    {
      hide InRange, RateOnTarget, TunerOnTarget, FilterOnBand, PllKnown, BandKnown;
      streaming := false;
    }

    // ---------- what the getters report ----------

    function ActualSampleRate(): real
      requires sizes.adcPerUser >= 0
      reads this
    {
      if adc.None? || changingRate || sizes.adcPerUser == 0 then 0.0
      else AdcFrequency() / sizes.adcPerUser as real
    }

    function ActualFrequency(): real
      reads this
    {
      if tuner.None? || adc.None? || changingRate || changingFreq then 0.0
      else tuner.value.actualFrequency - LoOffset(mode, sideband, undersampling, AdcFrequency())
    }

    function Centre(): real
      requires adc.Some?
      reads this
    {
      if mode == LowIfReal then 0.0 else RealMath.Abs(LoOffset(mode, sideband, undersampling, AdcFrequency()))
    }

    // The filter's corners, seen from the tuned frequency.
    function ActualBand(): (real, real)
      reads this
    {
      if adc.None? || bandpass.None? || changingRate || changingBandpass then (0.0, 0.0)
      else if sideband == Upper then (bandpass.value.lower - Centre(), bandpass.value.upper - Centre())
      else (Centre() - bandpass.value.upper, Centre() - bandpass.value.lower)
    }

    /** A reported frequency is within ten synthesiser steps of the request: nine for the
        rounding, one more because a configuration that programs the same registers is kept. */
    lemma ReportedFrequency()
      requires Valid() && !changingRate && !changingFreq && adc.Some? && requestedFrequency != 0.0
      ensures xtal > 0.0 && tuner.Some? && tuner.value.seldiv > 0
      ensures RealMath.Abs(ActualFrequency() - requestedFrequency)
              <= 10.0 * TunerPll.Step(TunerPll.PllRef(xtal), tuner.value.seldiv)
    {
      hide LoOffset, TunerPll.Pll, TunerPll.Step;
      var f :| TunerPll.Pll(f, xtal) == Ok(tuner.value);
      TunerPll.SameFieldsClose(f, LoTarget(), xtal);
      TunerPll.PllGood(LoTarget(), xtal);
      hide TunerPll.LeastReaching, TunerPll.Forbidden;
    }

    /** A reported sample rate is within ten parts per million of the request. */
    lemma ReportedRate()
      requires Valid() && !changingRate && requestedRate != 0.0
      ensures adc.Some? && sizes.adcPerUser > 0
      ensures RealMath.Abs(ActualSampleRate() - requestedRate) <= requestedRate * EPSILON
    {
      hide Stages, AdcPll.Find, BlocksPerTransfer;
      RateOfPlan(Input());
    }

    /** A transfer is as many whole blocks as fit both the USB limit and one user buffer; it is
        empty exactly when a single block does not. */
    lemma TransferSizes()
      requires Valid() && !changingRate && requestedRate != 0.0
      ensures sizes.transferBytes <= MAX_USB_TRANSFER
      ensures sizes.adcPerTransfer <= bufferSize * sizes.adcPerUser
      ensures sizes.transferBytes * samplesPerBlock == sizes.adcPerTransfer * bytesPerBlock
      ensures sizes.transferBytes + bytesPerBlock > MAX_USB_TRANSFER ||
              sizes.adcPerTransfer + samplesPerBlock > bufferSize * sizes.adcPerUser
      ensures sizes.transferBytes == 0 <==>
              bufferSize * sizes.adcPerUser < samplesPerBlock || bytesPerBlock > MAX_USB_TRANSFER
    {
      hide Stages, AdcPll.Find, BlocksPerTransfer;
      var i := Input();
      assert sizes == SizesFor(i);
      var blocks := BlocksPerTransfer(bufferSize, AdcPerUser(i), samplesPerBlock, bytesPerBlock);
      TransferFits(bufferSize, AdcPerUser(i), samplesPerBlock, bytesPerBlock);
      SameBlocks(blocks, samplesPerBlock, bytesPerBlock);
      OneMoreBlock(blocks, bytesPerBlock);
      OneMoreBlock(blocks, samplesPerBlock);
      NoBlocksNoBytes(blocks, bytesPerBlock);
    }

    /** With nothing pending, the filter is the right one exactly when the table has not been
        replaced since it was chosen. */
    lemma FilterCurrentIff()
      requires Valid() && !changingRate && !changingBandpass && adc.Some?
      ensures FilterOnBand() <==> !tableReplaced
    {
      hide WantedBand, RateOnTarget, TunerOnTarget;
    }
  }

  lemma SameBlocks(blocks: nat, spb: nat, bpb: nat)
    ensures blocks * bpb * spb == blocks * spb * bpb
  {
  }

  lemma RateOfPlan(i: RateInput)
    requires ValidInput(i) && PlanRate(i).Ok?
    ensures PlanRate(i).value.sizes.adcPerUser > 0
    ensures RealMath.Abs(PlanRate(i).value.adc.frequency / PlanRate(i).value.sizes.adcPerUser as real - i.rate) <= i.rate * EPSILON
  {
    hide PlanRate, Target, SizesFor, AdcPerUser, Stages, AdcPll.Find;
    PlanParts(i);
    TargetIs(i);
    AdcPll.FoundWithin(Target(i), false, true, i.noPll, EPSILON);
    ScaleDown(PlanRate(i).value.adc.frequency, i.rate, AdcPerUser(i) as real, EPSILON);
  }

  lemma ScaleDown(f: real, rate: real, n: real, e: real)
    requires n > 0.0 && RealMath.Abs(f - rate * n) <= rate * n * e
    ensures RealMath.Abs(f / n - rate) <= rate * e
  {
    var q := f / n;
    assert q * n == f;
    assert (q - rate) * n == f - rate * n;
    assert (rate * e) * n == rate * n * e;
    assert (-(rate * e)) * n == -(rate * n * e);
    RealMath.CancelLessEq(q - rate, rate * e, n);
    RealMath.CancelLessEq(-(rate * e), q - rate, n);
  }

  // ---------- any sequence of calls ----------

  datatype Call =
    | Mode(mode: Option<ConversionMode>) | BufferSize(size: nat) | SampleRate(rate: real) | Decimation(d: int)
    | Undersampling(u: nat) | AdcLimit(limit: real) | SidebandMode(sideband: Option<Sideband>) | Frequency(f: real)
    | BandpassRange(a: real, b: real) | BandpassTable(table: seq<Bandpass>)
    | Apply(pllWorks: bool, filterWorks: bool) | Start(pllWorks: bool, filterWorks: bool, resources: bool) | Stop

  method Perform(d: Device, c: Call)
    requires d.Valid()
    modifies d
    ensures d.Valid()
  {
    hide *;
    match c
    case Mode(m) => var _ := d.SetConversionMode(m);
    case BufferSize(n) => var _ := d.SetBufferSize(n);
    case SampleRate(r) => var _ := d.SetSampleRate(r);
    case Decimation(n) => var _ := d.SetDecimationMode(n);
    case Undersampling(n) => var _ := d.SetUndersamplingMode(n);
    case AdcLimit(l) => var _ := d.SetAdcLimit(l);
    case SidebandMode(s) => var _ := d.SetSideband(s);
    case Frequency(f) => d.SetFrequency(f);
    case BandpassRange(a, b) => d.SetBandpass(a, b);
    case BandpassTable(t) => var _ := d.SetBandpassTable(t);
    case Apply(p, f) => var _ := d.ApplyChanges(p, f);
    case Start(p, f, r) => var _ := d.StartStreaming(p, f, r);
    case Stop => d.StopStreaming();
  }

  /** The invariant survives every sequence of setters, applies (failing or not) and
      streaming starts and stops. */
  method PerformAll(d: Device, calls: seq<Call>)
    requires d.Valid()
    modifies d
    ensures d.Valid()
  {
    hide *;
    for k := 0 to |calls|
      invariant d.Valid()
    {
      Perform(d, calls[k]);
    }
  }

  /** After the table is replaced, applying changes succeeds, does nothing, and leaves the
      driver without a filter although the chip keeps the old one. */
  method ReplacedTableIsNotApplied(d: Device, t: seq<Bandpass>, pllWorks: bool, filterWorks: bool) returns (r: Result<(), Error>)
    requires d.Valid() && !d.changingRate && !d.changingFreq && !d.changingBandpass && d.adc.Some? && t != []
    modifies d
    ensures r.Ok? && d.table == t
    ensures d.Valid() && !d.changingRate && !d.changingFreq && !d.changingBandpass
    ensures !d.FilterOnBand() && d.chipBandpass == old(d.chipBandpass) && d.bandpass.None?
  {
    r := d.SetBandpassTable(t);
    hide WantedBand;
    d.FilterCurrentIff();
    r := d.ApplyChanges(pllWorks, filterWorks);
  }
}
