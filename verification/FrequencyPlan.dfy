/** Where a received signal ends up: LO offset, undersampling zone, aliasing by the ADC
    and the inversion applied while unpacking. */
module FrequencyPlan {
  import RealMath

  datatype Sideband = Lower | Upper

  datatype ConversionMode = LowIfReal | Baseband

  // The lower edge of the z-th zone of width fs / 2, counting from 0.
  function Edge(z: int, fs: real): real { z as real * fs / 2.0 }

  function UndersamplingOffset(undersampling: nat, fs: real): real {
    Edge(undersampling - 1, fs)
  }

  // The local oscillator sits this far from the tuned frequency.
  function LoOffset(mode: ConversionMode, sideband: Sideband, undersampling: nat, fs: real): real {
    var sign := if sideband == Upper then -1.0 else 1.0;
    match mode
    case LowIfReal => UndersamplingOffset(undersampling, fs) * sign
    case Baseband => (fs / 4.0 + UndersamplingOffset(undersampling, fs)) * sign
  }

  // The mixer's output for a real signal: the distance from the oscillator.
  function IntermediateFrequency(rf: real, lo: real): real { RealMath.Abs(rf - lo) }

  // Sampling at fs folds every frequency into [0, fs/2].
  function Folded(f: real, fs: real): real
    requires fs > 0.0
  {
    var r := Remainder(f, fs);
    if r <= fs / 2.0 then r else fs - r
  }

  function Remainder(f: real, fs: real): real
    requires fs > 0.0
  {
    f - (f / fs).Floor as real * fs
  }

  function InvertedSpectrum(sideband: Sideband, undersampling: nat): bool {
    (sideband == Lower) != (undersampling % 2 == 0)
  }

  // Negating every second sample mirrors [0, fs/2].
  function Received(rf: real, lo: real, fs: real, invert: bool): real
    requires fs > 0.0
  {
    var f := Folded(IntermediateFrequency(rf, lo), fs);
    if invert then fs / 2.0 - f else f
  }

  lemma FloorOf(x: real, n: int, r: real)
    requires x == n as real + r && 0.0 <= r < 1.0
    ensures x.Floor == n
  {
  }

  lemma RemainderAbove(z: nat, a: real, fs: real)
    requires fs > 0.0 && 0.0 < a < fs / 2.0
    ensures Remainder(Edge(z, fs) + a, fs) == if z % 2 == 0 then a else fs / 2.0 + a
  {
    var f := Edge(z, fs) + a;
    var k := z / 2;
    var odd := if z % 2 == 0 then 0.0 else 1.0;
    var r := odd * fs / 2.0 + a;
    assert z as real == 2.0 * k as real + odd;
    HalfSteps(z as real, k as real, odd, fs);
    DivideBy(f, k as real, r, fs);
    FloorOf(f / fs, k, r / fs);
  }

  // A frequency `a` above the lower edge of zone z keeps its offset or is mirrored.
  lemma FoldZone(z: nat, a: real, fs: real)
    requires fs > 0.0 && 0.0 < a < fs / 2.0
    ensures Folded(Edge(z, fs) + a, fs) == if z % 2 == 0 then a else fs / 2.0 - a
  {
    hide Edge, Remainder;
    RemainderAbove(z, a, fs);
  }

  lemma HalfSteps(z: real, k: real, odd: real, fs: real)
    requires z == 2.0 * k + odd
    ensures z * fs / 2.0 == k * fs + odd * fs / 2.0
  {
  }

  lemma DivideBy(f: real, k: real, r: real, fs: real)
    requires fs > 0.0 && f == k * fs + r && 0.0 <= r < fs
    ensures f / fs == k + r / fs && 0.0 <= r / fs < 1.0
  {
    var q := r / fs;
    assert q * fs == r;
    if q >= 1.0 {
      RealMath.MulLessEq(1.0, q, fs);
    } else if q < 0.0 {
      RealMath.MulLess(q, 0.0, fs);
    }
    assert (k + q) * fs == f;
  }

  /** In baseband mode a signal d above the tuned frequency lands d above a quarter of the
      sampling rate, for every undersampling zone and both sidebands, exactly when the
      inversion decided by the driver is applied (or the signal is at the centre, where
      the mirror image coincides). */
  lemma LandsAtQuarter(rf: real, d: real, fs: real, sideband: Sideband, undersampling: nat, invert: bool)
    requires fs > 0.0 && undersampling >= 1 && -(fs / 4.0) < d < fs / 4.0
    ensures Received(rf + d, rf + LoOffset(Baseband, sideband, undersampling, fs), fs, invert) == fs / 4.0 + d
            <==> invert == InvertedSpectrum(sideband, undersampling) || d == 0.0
  {
    var z := undersampling - 1;
    var a := if sideband == Upper then fs / 4.0 + d else fs / 4.0 - d;
    EdgeNotNegative(z, fs);
    hide Edge, Folded;
    assert IntermediateFrequency(rf + d, rf + LoOffset(Baseband, sideband, undersampling, fs)) == Edge(z, fs) + a;
    FoldZone(z, a, fs);
  }

  lemma EdgeNotNegative(z: nat, fs: real)
    requires fs > 0.0
    ensures Edge(z, fs) >= 0.0
  {
    RealMath.MulLessEq(0.0, z as real, fs);
  }

  /** In low-IF mode the tuned frequency sits at the lower edge of the zone, and a signal a
      from it, on the side the sideband selects, appears at a exactly in the odd zones (or at
      the middle of the band): low-IF conversion never undoes the mirroring of even zones. */
  lemma LandsInLowIf(rf: real, a: real, fs: real, sideband: Sideband, undersampling: nat)
    requires fs > 0.0 && undersampling >= 1 && 0.0 < a < fs / 2.0
    ensures var d := if sideband == Upper then a else -a;
            Received(rf + d, rf + LoOffset(LowIfReal, sideband, undersampling, fs), fs, false) == a
            <==> undersampling % 2 == 1 || a == fs / 4.0
  {
    var z := undersampling - 1;
    var d := if sideband == Upper then a else -a;
    EdgeNotNegative(z, fs);
    hide Edge, Folded;
    assert IntermediateFrequency(rf + d, rf + LoOffset(LowIfReal, sideband, undersampling, fs)) == Edge(z, fs) + a;
    FoldZone(z, a, fs);
  }
}
