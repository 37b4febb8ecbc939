/** Timestamps with their wrap-around: the driver computes sample positions in 32 bits, so
    timestamps are exact modulo 2^32 divided by the decimation ratio, whatever the sequence
    numbers are. */
module StreamWrap {
  import opened Fixed16
  import opened Halfband
  import opened DspHistory
  import opened Cascade
  import opened StreamDispatch
  import opened StreamTimestamps
  import RealMath

  const WORD := 0x1_0000_0000

  // ---------- remainders ----------

  lemma Shifted(y: int, m: int, w: nat)
    requires w > 0
    ensures (y + w * m) % w == y % w
  {
    var q, r := y / w, y % w;
    assert y == w * q + r;
    assert y + w * m == w * (q + m) + r by { assert w * q + w * m == w * (q + m); }
    DivMod(y + w * m, w, q + m, r);
  }

  lemma ModAgain(x: int, y: int, w: nat)
    requires w > 0
    ensures (x % w + y) % w == (x + y) % w
  {
    var q, r := x / w, x % w;
    assert x == w * q + r;
    Shifted(r + y, q, w);
  }

  // Halving a position modulo k * d leaves the quotient modulo k.
  lemma QuotientMod(x: nat, q: nat, d: nat, k: nat)
    requires d > 0 && k > 0
    ensures k * d > 0 && ((x + d * q) % (k * d)) / d == (x / d + q) % k
  {
    var t, s := x / d + q, x % d;
    assert x == d * (x / d) + s;
    assert d * (x / d) + d * q == d * t by { Times(d, x / d, q); }
    var h, u := t / k, t % k;
    assert t == k * h + u;
    Nested(d, k, h, u, s);
    DivMod(x + d * q, k * d, h, d * u + s);
    DivMod(d * u + s, d, u, s);
  }

  lemma Times(d: int, a: int, b: int)
    ensures d * a + d * b == d * (a + b)
  {
  }

  lemma Nested(d: nat, k: nat, h: int, u: nat, s: nat)
    requires d > 0 && u < k && s < d
    ensures d * (k * h + u) + s == (k * d) * h + (d * u + s)
    ensures 0 <= d * u + s < k * d
  {
    assert d * (k * h) == (k * d) * h;
    RealMath.IntMulLessEq(u + 1, k, d);
    RealMath.IntMulLessEq(0, u, d);
  }

  // ---------- the next timestamp, without any bound ----------

  // Timestamps go up to this and start again from zero.
  function Wrap(c: Config): nat {
    Quotient(WORD, Ratio(c))
  }

  lemma {:induction false} PowSplit(a: nat, b: nat)
    ensures Pow2(a + b) == Pow2(a) * Pow2(b)
  {
    if a > 0 { PowSplit(a - 1, b); }
  }

  lemma WordIsPow()
    ensures Pow2(32) == WORD
  {
    assert Pow2(8) == 256;
    PowSplit(8, 8);
    PowSplit(16, 16);
  }

  lemma QuotientIs(x: nat, d: nat, k: nat)
    requires d > 0 && k * d == x
    ensures Quotient(x, d) == k
  {
    DivMod(x, d, k, 0);
  }

  lemma WrapDivides(c: Config)
    requires |c.fs| <= 32
    ensures Wrap(c) > 0 && Wrap(c) * Ratio(c) == WORD
  {
    hide Pow2, Quotient;
    WordIsPow();
    PowSplit(32 - |c.fs|, |c.fs|);
    QuotientIs(WORD, Ratio(c), Pow2(32 - |c.fs|));
  }

  // Positions advance by a whole number of ratios from run to run.
  lemma PositionNext(c: Config, partial: nat, a: nat, n: nat)
    ensures Position(c, (a + n) % WORD, Held(c, partial, n) % Ratio(c))
            == (Position(c, a, partial) + Ratio(c) * (Held(c, partial, n) / Ratio(c))) % WORD
  {
    hide Ratio;
    var spb, held, d := c.samplesPerBlock, partial + n * c.samplesPerBlock, Ratio(c);
    var k, b := (a + n) / WORD, (a + n) % WORD;
    var q := held / d;
    assert held == d * q + held % d;
    Product(a, n, k, b, spb);
    Shifted(a * spb - partial + d * q, -(k * spb), WORD);
    ModAgain(a * spb - partial, d * q, WORD);
  }

  lemma Product(a: int, n: int, k: int, b: int, spb: int)
    requires a + n == WORD * k + b
    ensures b * spb == a * spb + n * spb + WORD * -(k * spb)
  {
    assert (a + n) * spb == a * spb + n * spb;
    assert (WORD * k + b) * spb == WORD * (k * spb) + b * spb;
  }

  /** For all sequence numbers, with or without a wrap of the sequence number or of the
      position: over contiguous blocks the next timestamp is the previous one plus the number
      of samples, modulo 2^32 divided by the ratio. */
  lemma NextModulo(c: Config, partial: nat, a: nat, n: nat)
    requires |c.fs| <= 32
    ensures Wrap(c) > 0
    ensures Timestamp(c, (a + n) % WORD, Held(c, partial, n) % Ratio(c))
            == (Timestamp(c, a, partial) + Held(c, partial, n) / Ratio(c)) % Wrap(c)
  {
    hide Ratio, Position, Wrap;
    WrapDivides(c);
    PositionNext(c, partial, a, n);
    QuotientMod(Position(c, a, partial), Held(c, partial, n) / Ratio(c), Ratio(c), Wrap(c));
  }

  lemma BelowIff(t: nat, k: nat, d: nat, w: nat)
    requires k > 0 && d > 0 && k * d == w
    ensures t % k == t <==> t * d < w
  {
    if t < k { RealMath.IntMulLess(t, k, d); } else { RealMath.IntMulLessEq(k, t, d); }
  }

  /** So the timestamps continue without a jump exactly when the sum stays below that. */
  lemma ContinuesIff(c: Config, partial: nat, a: nat, n: nat)
    requires |c.fs| <= 32
    ensures Timestamp(c, (a + n) % WORD, Held(c, partial, n) % Ratio(c))
              == Timestamp(c, a, partial) + Held(c, partial, n) / Ratio(c)
            <==> (Timestamp(c, a, partial) + Held(c, partial, n) / Ratio(c)) * Ratio(c) < WORD
  {
    hide Ratio, Timestamp, Held, Wrap;
    NextModulo(c, partial, a, n);
    WrapDivides(c);
    HeldBelow(Held(c, partial, n), Ratio(c));
    BelowIff(Timestamp(c, a, partial) + Held(c, partial, n) / Ratio(c), Wrap(c), Ratio(c), WORD);
  }

  // ---------- a whole stream without gaps ----------

  function BlocksIn(segs: seq<Segment>): nat {
    if segs == [] then 0 else BlocksIn(segs[..|segs| - 1]) + |segs[|segs| - 1].run|
  }

  // Runs that follow on from each other, from block `first` on; sequence numbers start again
  // at 2^32. Nothing is dropped.
  ghost predicate GapFree(c: Config, first: nat, segs: seq<Segment>)
    decreases |segs|
  {
    segs == [] ||
    (var last, before := segs[|segs| - 1], segs[..|segs| - 1];
     && GapFree(c, first, before)
     && last.available && Received(c, last.run)
     && last.sequence == (first + BlocksIn(before)) % WORD)
  }

  // The timestamp of the first sample.
  function Origin(c: Config, first: nat): nat {
    Quotient(first * c.samplesPerBlock % WORD, Ratio(c))
  }

  // Every buffer's timestamp is the origin plus the number of samples delivered before it.
  ghost predicate Counted(c: Config, first: nat, log: seq<Buffer>)
    requires Wrap(c) > 0
  {
    forall k :: 0 <= k < |log| ==> log[k].timestamp == (Origin(c, first) + |Delivered(log[..k])|) % Wrap(c)
  }

  lemma CountedMore(c: Config, first: nat, log: seq<Buffer>, b: Buffer)
    requires Wrap(c) > 0 && Counted(c, first, log)
    requires b.timestamp == (Origin(c, first) + |Delivered(log)|) % Wrap(c)
    ensures Counted(c, first, log + [b]) && |Delivered(log + [b])| == |Delivered(log)| + |b.samples|
  {
    hide Wrap, Origin, Delivered;
    var more := log + [b];
    assert more[..|log|] == log;
    forall k | 0 <= k < |log| ensures more[..k] == log[..k] {}
    DeliveredMore(log, b);
  }

  lemma DeliveredMore(log: seq<Buffer>, b: Buffer)
    ensures Delivered(log + [b]) == Delivered(log) + b.samples
  {
    assert (log + [b])[..|log|] == log;
  }

  lemma OriginIs(c: Config, first: nat)
    ensures Timestamp(c, first % WORD, 0) == Origin(c, first)
  {
    var q, r := first / WORD, first % WORD;
    assert first == WORD * q + r;
    Product(first, 0, q, r, c.samplesPerBlock);
    Shifted(first * c.samplesPerBlock, -(q * c.samplesPerBlock), WORD);
  }

  // The next sample's timestamp after everything delivered so far.
  ghost predicate Reaches(c: Config, first: nat, blocks: nat, s: Stream)
    requires Wrap(c) > 0
  {
    Timestamp(c, (first + blocks) % WORD, s.partial) == (Origin(c, first) + |Delivered(s.log)|) % Wrap(c)
  }

  lemma ReachesStart(c: Config, first: nat, s: Stream)
    requires |c.fs| <= 32 && s.partial == 0 && s.log == []
    ensures Wrap(c) > 0 && Reaches(c, first, 0, s) && Counted(c, first, s.log)
  {
    hide Wrap, Origin, Ratio, Timestamp;
    WrapDivides(c);
    OriginIs(c, first);
    OriginBelow(c, first);
  }

  lemma OriginBelow(c: Config, first: nat)
    requires |c.fs| <= 32
    ensures Wrap(c) > 0 && Origin(c, first) % Wrap(c) == Origin(c, first)
  {
    hide Wrap, Ratio;
    WrapDivides(c);
    HeldBelow(first * c.samplesPerBlock % WORD, Ratio(c));
    BelowIff(Origin(c, first), Wrap(c), Ratio(c), WORD);
  }

  lemma ValidShaped(c: Config)
    requires ValidConfig(c)
    ensures Shaped(c.fs)
  {
  }

  lemma ReachesMore(c: Config, first: nat, blocks: nat, s: Stream, run: seq<Block>)
    requires ValidConfig(c) && |c.fs| <= 32 && Consistent(c, s) && Received(c, run)
    requires Wrap(c) > 0 && Reaches(c, first, blocks, s) && Counted(c, first, s.log)
    ensures |s.carries| == |c.fs|
    ensures var t := DispatchRun(c, s, (first + blocks) % WORD, run, true);
            Consistent(c, t) && Reaches(c, first, blocks + |run|, t) && Counted(c, first, t.log) && |t.log| == |s.log| + 1
  {
    hide ValidConfig, Consistent, Received, Cascaded, Ratio, Wrap, Timestamp, Origin, Counted, Delivered;
    SameStages(c, s);
    RunConsistent(c, s, (first + blocks) % WORD, run, true);
    NextModulo(c, s.partial, (first + blocks) % WORD, |run|);
    SameSequence(first + blocks, |run|);
    ValidShaped(c);
    var out := Cascaded(c.fs, s.carries, Payload(run)).out;
    CountedMore(c, first, s.log, Buffer(Timestamp(c, (first + blocks) % WORD, s.partial), out));
    ModAgain(Origin(c, first) + |Delivered(s.log)|, |out|, Wrap(c));
  }

  lemma SameSequence(a: nat, n: nat)
    ensures (a % WORD + n) % WORD == (a + n) % WORD
  {
    ModAgain(a, n, WORD);
  }

  /** In a stream without gaps or dropped runs, of any length and from any first block, every
      buffer's timestamp is that of the first sample plus the number of samples delivered
      before, modulo 2^32 divided by the ratio. */
  lemma {:induction false} TimestampsCount(c: Config, s: Stream, first: nat, segs: seq<Segment>)
    requires ValidConfig(c) && |c.fs| <= 32 && Consistent(c, s) && s.partial == 0 && s.log == [] && GapFree(c, first, segs)
    ensures |s.carries| == |c.fs| && Wrap(c) > 0 && Consistent(c, Fold(c, s, segs))
    ensures |Fold(c, s, segs).log| == |segs| && Counted(c, first, Fold(c, s, segs).log)
    ensures Reaches(c, first, BlocksIn(segs), Fold(c, s, segs))
    decreases |segs|
  {
    hide ValidConfig, Consistent, Received, DispatchRun, Wrap, Counted, Reaches;
    SameStages(c, s);
    if segs == [] {
      ReachesStart(c, first, s);
    } else {
      var last, before := segs[|segs| - 1], segs[..|segs| - 1];
      TimestampsCount(c, s, first, before);
      ReachesMore(c, first, BlocksIn(before), Fold(c, s, before), last.run);
    }
  }

  // ---------- how many buffers a transfer gives ----------

  // Places where the sequence number does not follow the one before it.
  function Breaks(blocks: seq<Block>): nat {
    if |blocks| <= 1 then 0
    else
      var n := |blocks| - 1;
      Breaks(blocks[..n]) +
      if blocks[n].header.sequence == (blocks[n - 1].header.sequence + 1) % WORD then 0 else 1
  }

  lemma OnlyRun(b: Block)
    ensures Runs([b]) == [[b]]
  {
    assert [b][..0] == [];
  }

  lemma {:induction false} RunsCount(blocks: seq<Block>)
    requires blocks != []
    ensures |Runs(blocks)| == 1 + Breaks(blocks)
    decreases |blocks|
  {
    hide Follows, Runs;
    var front, b := blocks[..|blocks| - 1], blocks[|blocks| - 1];
    assert blocks == front + [b];
    if front == [] {
      OnlyRun(b);
    } else {
      RunsCount(front);
      FollowsIs(Last(front), b);
      RunsOfMore(front, b);
    }
  }

  lemma {:induction false} OneBufferEach(c: Config, s: Stream, runs: seq<seq<Block>>, available: nat -> bool)
    requires ValidConfig(c) && |s.carries| == |c.fs| && forall k :: 0 <= k < |runs| ==> runs[k] != []
    requires forall k :: 0 <= k < |runs| ==> available(k)
    ensures |DispatchAll(c, s, runs, available).log| == |s.log| + |runs|
    decreases |runs|
  {
    hide ValidConfig, Cascaded, Timestamp, Payload;
    if runs != [] { OneBufferEach(c, s, runs[..|runs| - 1], available); }
  }

  // The blocks before the first bad header.
  ghost predicate GoodUpTo(c: Config, blocks: seq<Block>, k: nat) {
    && k <= |blocks|
    && (forall j :: 0 <= j < k ==>
          blocks[j].header.magic == c.magic && blocks[j].header.blockLen == c.bytesPerBlock &&
          blocks[j].header.samples == c.samplesPerBlock)
    && (k < |blocks| ==>
          !(blocks[k].header.magic == c.magic && blocks[k].header.blockLen == c.bytesPerBlock &&
            blocks[k].header.samples == c.samplesPerBlock))
  }

  lemma FirstBadAt(c: Config, blocks: seq<Block>, k: nat)
    requires GoodUpTo(c, blocks, k)
    ensures FirstBad(c, blocks) == k
  {
    FirstBadIs(c, blocks, k);
  }

  lemma EmptyIsOne(c: Config, s: Stream, stale: nat, available: nat -> bool)
    requires ValidConfig(c) && |s.carries| == |c.fs| && available(0)
    ensures |Dispatched(c, s, [], 0, stale, available).log| == |s.log| + 1
  {
    hide Cascaded, Timestamp, Payload, ValidConfig;
  }

  /** With a buffer always at hand, a transfer gives one buffer per stretch of consecutive
      blocks; before a bad header the open stretch is lost. */
  lemma BuffersPerTransfer(c: Config, s: Stream, blocks: seq<Block>, stale: nat, available: nat -> bool, k: nat)
    requires ValidConfig(c) && |s.carries| == |c.fs| && (forall j: nat :: available(j)) && GoodUpTo(c, blocks, k)
    ensures |Dispatched(c, s, blocks, 0, stale, available).log| - |s.log|
            == if blocks == [] then 1 else if k == 0 then 0 else Breaks(blocks[..k]) + if k == |blocks| then 1 else 0
  {
    hide ValidConfig, DispatchRun, FirstBad, Runs, Breaks, DispatchAll;
    FirstBadAt(c, blocks, k);
    if blocks == [] {
      EmptyIsOne(c, s, stale, available);
    } else if k > 0 {
      RunsCount(blocks[..k]);
      RunsAllNonEmpty(blocks[..k]);
      assert k == |blocks| ==> blocks[..k] == blocks;
      OneBufferEach(c, s, if k == |blocks| then Runs(blocks) else Closed(blocks[..k]), available);
    } else {
      assert blocks[..0] == [];
      NothingDispatched(c, s, available);
    }
  }
}
