/** Timestamps and contents of the buffers over a whole run of dispatches. */
module StreamTimestamps {
  import opened Fixed16
  import opened Halfband
  import opened DspHistory
  import opened Cascade
  import opened StreamDispatch
  import RealMath

  lemma DivShift(x: nat, k: nat, g: nat, d: nat)
    requires d > 0
    ensures (x + k * d + g) / d >= x / d + k
    ensures g == 0 ==> (x + k * d + g) / d == x / d + k
    ensures g >= d ==> (x + k * d + g) / d > x / d + k
  {
    var q, r := x / d, x % d;
    assert x == d * q + r;
    assert d * q + d * k == d * (q + k);
    var e, m := (r + g) / d, (r + g) % d;
    assert r + g == d * e + m;
    assert d * (q + k) + d * e == d * (q + k + e);
    DivMod(x + k * d + g, d, q + k + e, m);
    if e < 0 { RealMath.IntMulLessEq(e, -1, d); }
    if g >= d && e < 1 { RealMath.IntMulLessEq(e, 0, d); }
    if g == 0 { DivMod(r + g, d, 0, r); }
  }

  lemma SpanSplit(a: nat, n: nat, b: nat, spb: nat)
    requires a + n <= b
    ensures b * spb == a * spb + n * spb + (b - (a + n)) * spb
    ensures (b - (a + n)) * spb >= 0 && a * spb <= b * spb
  {
    RealMath.IntMulLessEq(0, b - (a + n), spb);
    RealMath.IntMulLessEq(a, b, spb);
  }

  lemma ExactPosition(c: Config, sequence: nat, partial: nat)
    requires partial <= sequence * c.samplesPerBlock < 0x1_0000_0000
    ensures Position(c, sequence, partial) == sequence * c.samplesPerBlock - partial
  {
  }

  // ADC samples held when a run of n blocks has been added to `partial`.
  function Held(c: Config, partial: nat, n: nat): nat { partial + n * c.samplesPerBlock }

  /** The next timestamp: exactly one buffer later when the sequence numbers follow on, never
      earlier after a gap, and later when at least one output sample is missing. */
  lemma NextTimestamp(c: Config, partial: nat, a: nat, n: nat, b: nat)
    requires ValidConfig(c) && a + n <= b
    requires partial <= a * c.samplesPerBlock && b * c.samplesPerBlock < 0x1_0000_0000
    ensures Timestamp(c, b, Held(c, partial, n) % Ratio(c)) >= Timestamp(c, a, partial) + Held(c, partial, n) / Ratio(c)
    ensures b == a + n ==>
              Timestamp(c, b, Held(c, partial, n) % Ratio(c)) == Timestamp(c, a, partial) + Held(c, partial, n) / Ratio(c)
    ensures (b - (a + n)) * c.samplesPerBlock >= Ratio(c) ==>
              Timestamp(c, b, Held(c, partial, n) % Ratio(c)) > Timestamp(c, a, partial) + Held(c, partial, n) / Ratio(c)
  {
    hide Ratio, ValidConfig, Position;
    var d, held, missing := Ratio(c), Held(c, partial, n), (b - (a + n)) * c.samplesPerBlock;
    SpanSplit(a, n, b, c.samplesPerBlock);
    HeldBelow(held, d);
    ExactPosition(c, a, partial);
    ExactPosition(c, b, held % d);
    DivShift(a * c.samplesPerBlock - partial, held / d, missing, d);
  }

  lemma HeldBelow(held: nat, d: nat)
    requires d > 0
    ensures held == held / d * d + held % d && 0 <= held % d <= held && held / d >= 0
  {
    var q, r := held / d, held % d;
    assert held == d * q + r;
    if q < 0 { RealMath.IntMulLessEq(q, -1, d); }
    RealMath.IntMulLessEq(0, q, d);
  }

  // ---------- a whole run ----------

  // One dispatched run of blocks, and whether a buffer was available for it.
  datatype Segment = Segment(sequence: nat, run: seq<Block>, available: bool)

  ghost function Fold(c: Config, s: Stream, segs: seq<Segment>): (r: Stream)
    requires ValidConfig(c) && |s.carries| == |c.fs|
    ensures |r.carries| == |c.fs|
    decreases |segs|
  {
    if segs == [] then s
    else
      var last := segs[|segs| - 1];
      DispatchRun(c, Fold(c, s, segs[..|segs| - 1]), last.sequence, last.run, last.available)
  }

  function Segments(runs: seq<seq<Block>>, available: nat -> bool): (r: seq<Segment>)
    requires forall k :: 0 <= k < |runs| ==> runs[k] != []
    ensures |r| == |runs|
  {
    seq(|runs|, (k: nat) requires k < |runs| => Segment(runs[k][0].header.sequence, runs[k], available(k)))
  }

  /** A transfer's runs continue the fold: what holds of folds holds across transfers. */
  lemma {:induction false} TransferContinuesFold(c: Config, s: Stream, segs: seq<Segment>, runs: seq<seq<Block>>,
                                                 available: nat -> bool)
    requires ValidConfig(c) && |s.carries| == |c.fs| && forall k :: 0 <= k < |runs| ==> runs[k] != []
    ensures Fold(c, s, segs + Segments(runs, available)) == DispatchAll(c, Fold(c, s, segs), runs, available)
    decreases |runs|
  {
    hide DispatchRun, ValidConfig;
    if runs == [] {
      assert segs + Segments(runs, available) == segs;
    } else {
      var n := |runs| - 1;
      TransferContinuesFold(c, s, segs, runs[..n], available);
      var all := segs + Segments(runs, available);
      assert all[..|all| - 1] == segs + Segments(runs[..n], available);
    }
  }

  // Where the blocks seen so far end.
  function End(segs: seq<Segment>): nat {
    if segs == [] then 0 else segs[|segs| - 1].sequence + |segs[|segs| - 1].run|
  }

  // Sequence numbers only move forward, and no position reaches 2^32.
  ghost predicate Forward(c: Config, segs: seq<Segment>)
    decreases |segs|
  {
    segs == [] ||
    (var last := segs[|segs| - 1];
     && Forward(c, segs[..|segs| - 1])
     && Received(c, last.run)
     && End(segs[..|segs| - 1]) <= last.sequence
     && End(segs) * c.samplesPerBlock < 0x1_0000_0000)
  }

  ghost predicate Ordered(log: seq<Buffer>) {
    forall k :: 0 < k < |log| ==> log[k - 1].timestamp + |log[k - 1].samples| <= log[k].timestamp
  }

  function EndOf(b: Buffer): nat { b.timestamp + |b.samples| }

  lemma OrderedStep(log: seq<Buffer>, b: Buffer)
    requires Ordered(log) && (log != [] ==> EndOf(log[|log| - 1]) <= b.timestamp)
    ensures Ordered(log + [b])
  {
  }

  lemma MulForward(a: nat, b: nat, spb: nat)
    requires a <= b
    ensures a * spb <= b * spb
  {
    RealMath.IntMulLessEq(a, b, spb);
  }

  lemma PartialForward(partial: nat, sequence: nat, n: nat, spb: nat, d: nat)
    requires d > 0 && partial <= sequence * spb
    ensures 0 <= (partial + n * spb) % d <= (sequence + n) * spb
  {
    HeldBelow(partial + n * spb, d);
  }

  // The stream after some segments: the pending count fits below the position, and the
  // last buffer ends where the pending samples begin.
  ghost predicate Located(c: Config, s: Stream, end: nat) {
    && s.partial <= end * c.samplesPerBlock
    && Ordered(s.log)
    && (s.log != [] ==> EndOf(s.log[|s.log| - 1]) <= Timestamp(c, end, s.partial))
  }

  lemma LocatedLater(c: Config, s: Stream, a: nat, b: nat)
    requires ValidConfig(c) && Consistent(c, s) && Located(c, s, a)
    requires a <= b && b * c.samplesPerBlock < 0x1_0000_0000
    ensures Located(c, s, b)
  {
    hide Ratio, ValidConfig, Ordered, Primed, Pending, Timestamp;
    MulForward(a, b, c.samplesPerBlock);
    NextTimestamp(c, s.partial, a, 0, b);
    PendingBelow(c.fs, s.carries);
    RatioIs(c);
    DivMod(s.partial, Ratio(c), 0, s.partial);
  }

  lemma RatioIs(c: Config)
    ensures Ratio(c) == Pow2(|c.fs|)
  {
  }

  lemma LocatedStep(c: Config, s: Stream, sequence: nat, run: seq<Block>, available: bool)
    requires ValidConfig(c) && Consistent(c, s) && Received(c, run) && Located(c, s, sequence)
    requires (sequence + |run|) * c.samplesPerBlock < 0x1_0000_0000
    ensures Located(c, DispatchRun(c, s, sequence, run, available), sequence + |run|)
  {
    hide Ratio, Shaped, Ordered, Consistent, Timestamp, Cascaded, Received;
    SameStages(c, s);
    if !available {
      LocatedLater(c, s, sequence, sequence + |run|);
    } else {
      RunConsistent(c, s, sequence, run, available);
      NextTimestamp(c, s.partial, sequence, |run|, sequence + |run|);
      PartialForward(s.partial, sequence, |run|, c.samplesPerBlock, Ratio(c));
      OrderedStep(s.log, Buffer(Timestamp(c, sequence, s.partial), Cascaded(c.fs, s.carries, Payload(run)).out));
    }
  }

  /** Over any forward-moving run, with gaps and dropped runs, no buffer starts before the
      previous one ended. */
  lemma {:induction false} TimestampsOrdered(c: Config, s: Stream, segs: seq<Segment>)
    requires ValidConfig(c) && Consistent(c, s) && s.partial == 0 && s.log == []
    requires Forward(c, segs)
    ensures |s.carries| == |c.fs| && Consistent(c, Fold(c, s, segs)) && Located(c, Fold(c, s, segs), End(segs))
    decreases |segs|
  {
    hide Ratio, ValidConfig, Consistent, Located, Received;
    SameStages(c, s);
    if segs == [] {
      AtStart(c, s);
    } else {
      var last := segs[|segs| - 1];
      var before := segs[..|segs| - 1];
      TimestampsOrdered(c, s, before);
      RunConsistent(c, Fold(c, s, before), last.sequence, last.run, last.available);
      MulForward(last.sequence, End(segs), c.samplesPerBlock);
      LocatedLater(c, Fold(c, s, before), End(before), last.sequence);
      LocatedStep(c, Fold(c, s, before), last.sequence, last.run, last.available);
    }
  }

  lemma AtStart(c: Config, s: Stream)
    requires s.partial == 0 && s.log == []
    ensures Located(c, s, 0)
  {
  }

  // ---------- an empty transfer ----------

  lemma {:induction false} CascadeOfNothing(fs: seq<Filter>, cs: seq<seq<Cs16>>)
    requires Primed(fs, cs)
    ensures Cascaded(fs, cs, []) == Run(cs, [])
    decreases |fs|
  {
    hide HalfbandShape;
    if fs != [] {
      var n := |fs| - 1;
      CascadeOfNothing(fs[..n], cs[..n]);
      StageOfNothing(fs[n], cs[n]);
      assert cs == cs[..n] + [cs[n]];
    }
  }

  lemma StageOfNothing(f: Filter, c: seq<Cs16>)
    requires HalfbandShape(f) && f.ntaps - 1 <= |c| <= f.ntaps
    ensures CallOutput(f, c, []) == [] && CallRest(f, c, []) == c
  {
    assert c + [] == c;
  }

  /** A transfer without blocks reaches the callback as a buffer without samples and changes
      nothing else. */
  lemma EmptyTransfer(c: Config, s: Stream, stale: nat, available: nat -> bool)
    requires ValidConfig(c) && Consistent(c, s) && available(0)
    ensures |s.carries| == |c.fs|
    ensures Dispatched(c, s, [], 0, stale, available) == s.(log := s.log + [Buffer(Timestamp(c, stale, s.partial), [])])
  {
    hide Cascaded, Timestamp;
    CascadeOfNothing(c.fs, s.carries);
    PendingBelow(c.fs, s.carries);
    DivMod(s.partial, Ratio(c), 0, s.partial);
  }

  // ---------- what is delivered ----------

  function Delivered(log: seq<Buffer>): seq<Cs16> {
    if log == [] then [] else Delivered(log[..|log| - 1]) + log[|log| - 1].samples
  }

  // The payloads of the segments that got a buffer.
  function Kept(segs: seq<Segment>): seq<seq<Cs16>> {
    if segs == [] then []
    else
      var last := segs[|segs| - 1];
      Kept(segs[..|segs| - 1]) + if last.available then [Payload(last.run)] else []
  }

  lemma {:induction false} FoldFeeds(c: Config, s: Stream, segs: seq<Segment>)
    requires ValidConfig(c) && |s.carries| == |c.fs| && s.log == []
    ensures Fold(c, s, segs).carries == Feed(c.fs, s.carries, Kept(segs)).carries
    ensures Delivered(Fold(c, s, segs).log) == Feed(c.fs, s.carries, Kept(segs)).out
    decreases |segs|
  {
    hide Cascaded, Timestamp, Payload;
    if segs != [] {
      var last := segs[|segs| - 1];
      var before := segs[..|segs| - 1];
      FoldFeeds(c, s, before);
      if last.available {
        assert (Kept(before) + [Payload(last.run)])[..|Kept(before)|] == Kept(before);
        var log := Fold(c, s, before).log;
        assert Fold(c, s, segs).log[..|log|] == log;
      } else {
        assert Kept(before) + [] == Kept(before);
      }
    }
  }

  /** Everything handed to the callback, joined, is one conversion of everything that was
      not dropped: neither the transfers nor the runs leave a trace in the samples. */
  lemma DeliveredIsOneConversion(c: Config, s: Stream, segs: seq<Segment>)
    requires ValidConfig(c) && Consistent(c, s) && s.partial == 0 && s.log == []
    ensures |s.carries| == |c.fs|
    ensures Kept(segs) != [] ==>
              Delivered(Fold(c, s, segs).log) == Cascaded(c.fs, s.carries, Joined(Kept(segs))).out
    ensures Kept(segs) != [] ==>
              |Delivered(Fold(c, s, segs).log)| == |Joined(Kept(segs))| / Ratio(c)
  {
    hide Cascaded, Fold, Kept, Feed, Delivered, Joined, Pow2;
    SameStages(c, s);
    FoldFeeds(c, s, segs);
    FeedJoins(c.fs, s.carries, Kept(segs));
    CascadeCount(c.fs, s.carries, Joined(Kept(segs)));
  }
}
