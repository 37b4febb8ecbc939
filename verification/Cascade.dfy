/** A cascade of decimators: the downconverter's filter followed by the extra
    decimation stages. */
module Cascade {
  import opened Fixed16
  import opened Halfband
  import opened DspHistory
  import RealMath

  ghost predicate Shaped(fs: seq<Filter>) {
    forall k :: 0 <= k < |fs| ==> HalfbandShape(fs[k])
  }

  // What the stages keep, and what comes out of the last one.
  datatype Run = Run(carries: seq<seq<Cs16>>, out: seq<Cs16>)

  ghost function Cascaded(fs: seq<Filter>, cs: seq<seq<Cs16>>, input: seq<Cs16>): (r: Run)
    requires Shaped(fs) && |cs| == |fs|
    ensures |r.carries| == |fs|
    decreases |fs|
  {
    if fs == [] then Run([], input)
    else
      var n := |fs| - 1;
      var before := Cascaded(fs[..n], cs[..n], input);
      Run(before.carries + [CallRest(fs[n], cs[n], before.out)], CallOutput(fs[n], cs[n], before.out))
  }

  // ---------- cutting the stream into calls ----------

  lemma CallChunks(f: Filter, c: seq<Cs16>, a: seq<Cs16>, b: seq<Cs16>)
    requires HalfbandShape(f)
    ensures CallOutput(f, c, a + b) == CallOutput(f, c, a) + CallOutput(f, CallRest(f, c, a), b)
    ensures CallRest(f, c, a + b) == CallRest(f, CallRest(f, c, a), b)
  {
    hide HalfbandShape, Output, Rest;
    assert c + (a + b) == (c + a) + b;
    StageChunks(f, c + a, b);
  }

  /** Two calls of the whole cascade equal one call on the joined input. */
  lemma {:induction false} CascadeChunks(fs: seq<Filter>, cs: seq<seq<Cs16>>, a: seq<Cs16>, b: seq<Cs16>)
    requires Shaped(fs) && |cs| == |fs|
    ensures Cascaded(fs, cs, a + b).out == Cascaded(fs, cs, a).out + Cascaded(fs, Cascaded(fs, cs, a).carries, b).out
    ensures Cascaded(fs, cs, a + b).carries == Cascaded(fs, Cascaded(fs, cs, a).carries, b).carries
    decreases |fs|
  {
    hide CallOutput, CallRest, HalfbandShape;
    if fs != [] {
      var n := |fs| - 1;
      CascadeChunks(fs[..n], cs[..n], a, b);
      var first := Cascaded(fs[..n], cs[..n], a);
      var second := Cascaded(fs[..n], first.carries, b);
      CallChunks(fs[n], cs[n], first.out, second.out);
      assert Cascaded(fs, cs, a).carries[..n] == first.carries;
    }
  }

  // Feeding a list of chunks one after the other.
  ghost function Feed(fs: seq<Filter>, cs: seq<seq<Cs16>>, chunks: seq<seq<Cs16>>): (r: Run)
    requires Shaped(fs) && |cs| == |fs|
    ensures |r.carries| == |fs|
    decreases |chunks|
  {
    if chunks == [] then Run(cs, [])
    else
      var before := Feed(fs, cs, chunks[..|chunks| - 1]);
      var last := Cascaded(fs, before.carries, chunks[|chunks| - 1]);
      Run(last.carries, before.out + last.out)
  }

  ghost function Joined(chunks: seq<seq<Cs16>>): seq<Cs16>
    decreases |chunks|
  {
    if chunks == [] then [] else Joined(chunks[..|chunks| - 1]) + chunks[|chunks| - 1]
  }

  // ---------- counting ----------

  function Pow2(n: nat): (r: nat)
    ensures r > 0
  {
    if n == 0 then 1 else 2 * Pow2(n - 1)
  }

  // Each stage holds ntaps - 1 or ntaps samples: no or one input beyond its context.
  ghost predicate Primed(fs: seq<Filter>, cs: seq<seq<Cs16>>) {
    |cs| == |fs| && Shaped(fs) &&
    forall k :: 0 <= k < |fs| ==> fs[k].ntaps - 1 <= |cs[k]| <= fs[k].ntaps
  }

  // Inputs of the first stage that have gone in but not yet come out as outputs.
  ghost function Pending(fs: seq<Filter>, cs: seq<seq<Cs16>>): nat
    requires Primed(fs, cs)
    decreases |fs|
  {
    if fs == [] then 0
    else
      var n := |fs| - 1;
      Pending(fs[..n], cs[..n]) + Pow2(n) * (|cs[n]| - (fs[n].ntaps - 1))
  }

  lemma HalveFurther(x: int, p: int, d: nat, r: int)
    requires d > 0 && 0 <= r <= 1 && 0 <= p < d && x >= 0
    ensures (p + d * r + x) / (2 * d) == (r + (p + x) / d) / 2
    ensures (p + d * r + x) % (2 * d) == (p + x) % d + d * ((r + (p + x) / d) % 2)
  {
    var q, m := (p + x) / d, (p + x) % d;
    HalveQuotient(p + x, d, r, q, m, (r + q) / 2, (r + q) % 2);
  }

  lemma HalveQuotient(y: int, d: nat, r: int, q: int, m: int, h: int, l: int)
    requires d > 0 && y == d * q + m && 0 <= m < d
    requires r + q == 2 * h + l && 0 <= l <= 1
    ensures (y + d * r) / (2 * d) == h && (y + d * r) % (2 * d) == m + d * l
  {
    Regroup(d, q, r, h, l);
    RealMath.IntMulLessEq(l, 1, d);
    RealMath.IntMulLessEq(0, l, d);
    assert y + d * r == (2 * d) * h + (m + d * l);
    DivMod(y + d * r, 2 * d, h, m + d * l);
  }

  lemma Regroup(d: int, q: int, r: int, h: int, l: int)
    requires r + q == 2 * h + l
    ensures d * q + d * r == (2 * d) * h + d * l
  {
    assert d * q + d * r == d * (r + q);
    assert d * (2 * h + l) == (2 * d) * h + d * l;
  }

  lemma DivMod(x: int, d: nat, q: int, m: int)
    requires d > 0 && x == d * q + m && 0 <= m < d
    ensures x / d == q && x % d == m
  {
    var e, l := x / d, x % d;
    assert x == d * e + l;
    if m >= l {
      RealMath.RemainderZero(q, m - l, e, d);
    } else {
      RealMath.RemainderZero(e, l - m, q, d);
    }
  }

  lemma AtMostOnce(p: nat, r: int)
    requires 0 <= r <= 1
    ensures 0 <= p * r <= p
  {
  }

  lemma {:induction false} PendingBelow(fs: seq<Filter>, cs: seq<seq<Cs16>>)
    requires Primed(fs, cs)
    ensures Pending(fs, cs) < Pow2(|fs|)
    decreases |fs|
  {
    hide HalfbandShape, Pow2;
    Pow2Step(0);
    if fs != [] {
      var n := |fs| - 1;
      Pow2Step(n);
      PendingBelow(fs[..n], cs[..n]);
      AtMostOnce(Pow2(n), |cs[n]| - (fs[n].ntaps - 1));
    }
  }

  // One primed stage: half of what it holds beyond its context, rounded down.
  lemma StageCount(f: Filter, c: seq<Cs16>, input: seq<Cs16>)
    requires HalfbandShape(f) && f.ntaps - 1 <= |c| <= f.ntaps
    ensures |CallOutput(f, c, input)| == (|c| - (f.ntaps - 1) + |input|) / 2
    ensures |CallRest(f, c, input)| == f.ntaps - 1 + (|c| - (f.ntaps - 1) + |input|) % 2
  {
  }

  /** The cascade emits the number of inputs so far divided by 2^stages, rounded down, and
      what is pending is the remainder. */
  lemma {:induction false} CascadeCount(fs: seq<Filter>, cs: seq<seq<Cs16>>, input: seq<Cs16>)
    requires Primed(fs, cs)
    ensures |Cascaded(fs, cs, input).out| == (Pending(fs, cs) + |input|) / Pow2(|fs|)
    ensures Primed(fs, Cascaded(fs, cs, input).carries)
    ensures Pending(fs, Cascaded(fs, cs, input).carries) == (Pending(fs, cs) + |input|) % Pow2(|fs|)
    decreases |fs|
  {
    hide CallOutput, CallRest, HalfbandShape, Pow2;
    if fs == [] {
      Pow2Step(0);
    } else {
      var n := |fs| - 1;
      var before := Cascaded(fs[..n], cs[..n], input);
      CascadeCount(fs[..n], cs[..n], input);
      PendingBelow(fs[..n], cs[..n]);
      StageCount(fs[n], cs[n], before.out);
      HalveFurther(|input|, Pending(fs[..n], cs[..n]), Pow2(n), |cs[n]| - (fs[n].ntaps - 1));
      var carries := Cascaded(fs, cs, input).carries;
      assert carries[..n] == before.carries;
      Pow2Step(n);
    }
  }

  lemma Pow2Step(n: nat)
    ensures Pow2(0) == 1 && Pow2(n + 1) == 2 * Pow2(n)
  {
  }

  // After a reset every stage holds zeros only and nothing is pending.
  ghost function Zeros(n: nat): (r: seq<Cs16>)
    ensures |r| == n
  {
    seq(n, _ => Cs16(0, 0))
  }

  ghost function Fresh(fs: seq<Filter>): (r: seq<seq<Cs16>>)
    requires Shaped(fs)
    ensures |r| == |fs|
  {
    seq(|fs|, k requires 0 <= k < |fs| => Zeros(fs[k].ntaps - 1))
  }

  lemma {:induction false} FreshPending(fs: seq<Filter>)
    requires Shaped(fs)
    ensures Primed(fs, Fresh(fs)) && Pending(fs, Fresh(fs)) == 0
    decreases |fs|
  {
    hide HalfbandShape, Pow2;
    if fs != [] {
      var n := |fs| - 1;
      FreshPending(fs[..n]);
      assert Fresh(fs)[..n] == Fresh(fs[..n]);
    }
  }

  /** However a stream is cut into calls, the cascade's total output is that of one call. */
  lemma {:induction false} FeedJoins(fs: seq<Filter>, cs: seq<seq<Cs16>>, chunks: seq<seq<Cs16>>)
    requires Primed(fs, cs)
    ensures chunks != [] ==> Feed(fs, cs, chunks).out == Cascaded(fs, cs, Joined(chunks)).out
    ensures chunks != [] ==> Feed(fs, cs, chunks).carries == Cascaded(fs, cs, Joined(chunks)).carries
    decreases |chunks|
  {
    hide Cascaded;
    if chunks != [] {
      var front, last := chunks[..|chunks| - 1], chunks[|chunks| - 1];
      if front == [] {
        assert Joined(chunks) == last;
      } else {
        FeedJoins(fs, cs, front);
        CascadeChunks(fs, cs, Joined(front), last);
      }
    }
  }
}
