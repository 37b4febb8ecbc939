/** The Fs/4 mixer: multiplies a real stream by the powers of -i, which takes only
    sign changes and zeros. */
module Fs4Mix {
  import opened Unpack

  datatype Cs = Cs(i: bv16, q: bv16)

  // Sample k times the k-th power of -i.
  function MixAt(x: seq<bv16>, k: nat): Cs
    requires k < |x|
  {
    if k % 4 == 0 then Cs(x[k], 0)
    else if k % 4 == 1 then Cs(0, Neg16(x[k]))
    else if k % 4 == 2 then Cs(Neg16(x[k]), 0)
    else Cs(0, x[k])
  }

  function Mixed(x: seq<bv16>): (r: seq<Cs>)
    ensures |r| == |x|
  {
    seq(|x|, k requires 0 <= k < |x| => MixAt(x, k))
  }

  // Multiplication by -i, the step from one phase to the next.
  function TimesMinusI(c: Cs): Cs { Cs(c.q, Neg16(c.i)) }

  function Phase(n: nat, c: Cs): Cs {
    if n == 0 then c else TimesMinusI(Phase(n - 1, c))
  }

  function Conjugate(c: Cs): Cs { Cs(c.i, Neg16(c.q)) }

  lemma FourPhases(n: nat, c: Cs)
    ensures Phase(n + 4, c) == Phase(n, c)
  {
    var p := Phase(n, c);
    assert Phase(n + 2, c) == TimesMinusI(TimesMinusI(p));
    assert Phase(n + 4, c) == TimesMinusI(TimesMinusI(Phase(n + 2, c)));
    TurnFour(p);
  }

  lemma TurnFour(p: Cs)
    ensures TimesMinusI(TimesMinusI(TimesMinusI(TimesMinusI(p)))) == p
  {
  }

  /** The sign table is multiplication by a rotating phase. */
  lemma {:induction false} MixIsRotation(x: seq<bv16>, k: nat, m: nat)
    requires k < |x| && k % 4 == m % 4 && m <= k
    ensures MixAt(x, k) == Phase(m, Cs(x[k], 0))
    decreases m
  {
    if m < 4 {
      FirstPhases(x[k]);
    } else {
      MixIsRotation(x, k, m - 4);
      FourPhases(m - 4, Cs(x[k], 0));
    }
  }

  lemma FirstPhases(x: bv16)
    ensures Phase(0, Cs(x, 0)) == Cs(x, 0) && Phase(1, Cs(x, 0)) == Cs(0, Neg16(x))
    ensures Phase(2, Cs(x, 0)) == Cs(Neg16(x), 0) && Phase(3, Cs(x, 0)) == Cs(0, x)
  {
    var c := Cs(x, 0);
    assert Phase(1, c) == TimesMinusI(c) == Cs(0, Neg16(x));
    assert Phase(2, c) == TimesMinusI(Phase(1, c)) == Cs(Neg16(x), 0);
    assert Phase(3, c) == TimesMinusI(Phase(2, c));
  }

  /** Negating every second sample mirrors the spectrum: the mixer's output is conjugated. */
  lemma MixOfInverted(x: seq<bv16>, k: nat)
    requires k < |x|
    ensures Mixed(Signed(true, x))[k] == Conjugate(Mixed(Signed(false, x))[k])
  {
    NegTwice(x[k]);
    assert Signed(false, x)[k] == x[k];
  }

  lemma NegTwice(x: bv16)
    ensures Neg16(Neg16(x)) == x && Neg16(0) == 0
  {
  }

  /** Mixing in chunks whose lengths are multiples of four equals mixing the whole. */
  lemma MixChunks(a: seq<bv16>, b: seq<bv16>)
    requires |a| % 4 == 0
    ensures Mixed(a + b) == Mixed(a) + Mixed(b)
  {
    hide Neg16;
  }

  /** Only then: a chunk of any other length puts the rest out of phase. */
  lemma MixChunksIff(a: seq<bv16>)
    ensures (forall b :: Mixed(a + b) == Mixed(a) + Mixed(b)) <==> |a| % 4 == 0
  {
    if |a| % 4 == 0 {
      forall b ensures Mixed(a + b) == Mixed(a) + Mixed(b) { MixChunks(a, b); }
    } else {
      OnePhaseOff(a);
    }
  }

  lemma OnePhaseOff(a: seq<bv16>)
    requires |a| % 4 != 0
    ensures Mixed(a + [1]) != Mixed(a) + Mixed([1])
  {
    MinusOne();
    hide Neg16;
    var n := |a|;
    assert (a + [1])[n] == 1;
    assert Mixed(a + [1])[n] == MixAt(a + [1], n);
    assert (Mixed(a) + Mixed([1]))[n] == Mixed([1])[0] == Cs(1, 0);
  }

  lemma MinusOne()
    ensures Neg16(1) != 1
  {
  }

  method Store(out: array<Cs>, at: nat, block: seq<Cs>)
    requires at + |block| <= out.Length
    modifies out
    ensures out[..at + |block|] == old(out[..at]) + block
  {
    forall k | 0 <= k < |block| { out[at + k] := block[k]; }
  }

  function Four(x: seq<bv16>, at: nat): (r: seq<Cs>)
    requires at + 4 <= |x|
    ensures |r| == 4
  {
    [Cs(x[at], 0), Cs(0, Neg16(x[at + 1])), Cs(Neg16(x[at + 2]), 0), Cs(0, x[at + 3])]
  }

  lemma MixedStep(x: seq<bv16>, at: nat)
    requires at % 4 == 0 && at + 4 <= |x|
    ensures Mixed(x[..at + 4]) == Mixed(x[..at]) + Four(x, at)
  {
    hide Neg16;
  }

  /** The scalar mixer. */
  method MixScalar(x: seq<bv16>, out: array<Cs>) returns (n: nat)
    requires |x| % 4 == 0 && |x| <= out.Length
    modifies out
    ensures n == |x| && out[..n] == Mixed(x)
  {
    hide Mixed, Four;
    var i := 0;
    assert Mixed(x[..0]) == [];
    while i < |x|
      invariant 0 <= i <= |x| && i % 4 == 0 && out[..i] == Mixed(x[..i])
    {
      MixedStep(x, i);
      Store(out, i, Four(x, i));
      i := i + 4;
    }
    assert x[..i] == x;
    return |x|;
  }

  // ---------- the vector mixer ----------

  datatype V4 = V4(a: bv16, b: bv16, c: bv16, d: bv16)

  // Lanes times { 1, -1, 1, -1 }, or the opposite signs.
  function TimesSigns(v: V4, odd: bool): V4 {
    if odd then V4(v.a * 0xFFFF, v.b * 1, v.c * 0xFFFF, v.d * 1)
    else V4(v.a * 1, v.b * 0xFFFF, v.c * 1, v.d * 0xFFFF)
  }

  function ZipLow(u: V4, v: V4): V4 { V4(u.a, v.a, u.b, v.b) }

  function ZipHigh(u: V4, v: V4): V4 { V4(u.c, v.c, u.d, v.d) }

  // Eight samples: de-interleaving load, sign lanes, zips with zero, interleaving store.
  function Eight(x: seq<bv16>, at: nat): (r: seq<Cs>)
    requires at + 8 <= |x|
    ensures |r| == 8
  {
    var even, odd := V4(x[at], x[at + 2], x[at + 4], x[at + 6]), V4(x[at + 1], x[at + 3], x[at + 5], x[at + 7]);
    var outI, outQ := TimesSigns(even, false), TimesSigns(odd, true);
    var zero := V4(0, 0, 0, 0);
    var i0, i1 := ZipLow(outI, zero), ZipHigh(outI, zero);
    var q0, q1 := ZipLow(zero, outQ), ZipHigh(zero, outQ);
    [Cs(i0.a, q0.a), Cs(i0.b, q0.b), Cs(i0.c, q0.c), Cs(i0.d, q0.d),
     Cs(i1.a, q1.a), Cs(i1.b, q1.b), Cs(i1.c, q1.c), Cs(i1.d, q1.d)]
  }

  lemma SignLanes(v: V4, odd: bool)
    ensures TimesSigns(v, odd) == if odd then V4(Neg16(v.a), v.b, Neg16(v.c), v.d) else V4(v.a, Neg16(v.b), v.c, Neg16(v.d))
  {
  }

  lemma EightIsTwoFours(x: seq<bv16>, at: nat)
    requires at + 8 <= |x|
    ensures Eight(x, at) == Four(x, at) + Four(x, at + 4)
  {
    hide TimesSigns, Neg16;
    SignLanes(V4(x[at], x[at + 2], x[at + 4], x[at + 6]), false);
    SignLanes(V4(x[at + 1], x[at + 3], x[at + 5], x[at + 7]), true);
  }

  /** The vector mixer stores what the scalar mixer stores. */
  method MixNeon(x: seq<bv16>, out: array<Cs>) returns (n: nat)
    requires |x| % 4 == 0 && |x| <= out.Length
    modifies out
    ensures n == |x| && out[..n] == Mixed(x)
  {
    hide Mixed, Four, Eight;
    var i := 0;
    assert Mixed(x[..0]) == [];
    while i + 8 <= |x|
      invariant 0 <= i <= |x| && i % 4 == 0 && out[..i] == Mixed(x[..i])
    {
      MixedStep(x, i);
      MixedStep(x, i + 4);
      EightIsTwoFours(x, i);
      Store(out, i, Eight(x, i));
      i := i + 8;
    }
    if i < |x| {
      MixedStep(x, i);
      Store(out, i, Four(x, i));
      i := i + 4;
    }
    assert x[..i] == x;
    return |x|;
  }
}
