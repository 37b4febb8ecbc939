/** Dispatching one completed transfer: headers are checked, the blocks are cut into
    runs of consecutive sequence numbers, and each run is converted and handed to the
    callback with one timestamp. */
module StreamDispatch {
  import opened Wrappers
  import opened Fixed16
  import opened Halfband
  import opened DspHistory
  import opened Cascade
  import RealMath

  datatype Header = Header(magic: nat, blockLen: nat, samples: nat, sequence: nat)

  // A block's payload after unpacking and mixing; module BlockPayload says what that is.
  datatype Block = Block(header: Header, payload: seq<Cs16>)

  // fs lists the decimation stages; none at all in low-IF mode.
  datatype Config = Config(magic: nat, bytesPerBlock: nat, samplesPerBlock: nat, bufferSize: nat, fs: seq<Filter>)

  datatype Buffer = Buffer(timestamp: nat, samples: seq<Cs16>)

  // The converter's history, the ADC samples not yet part of an output sample, and the
  // buffers handed to the callback.
  datatype Stream = Stream(carries: seq<seq<Cs16>>, partial: nat, log: seq<Buffer>)

  datatype FormatError = TransferFormat

  // ADC samples per user sample.
  function Ratio(c: Config): (r: nat)
    ensures r > 0
  {
    Pow2(|c.fs|)
  }

  ghost predicate ValidConfig(c: Config) {
    c.samplesPerBlock > 0 && c.bytesPerBlock > 0 && Shaped(c.fs)
  }

  // partial counts exactly what the decimators are holding back.
  ghost predicate Consistent(c: Config, s: Stream) {
    Primed(c.fs, s.carries) && s.partial == Pending(c.fs, s.carries)
  }

  function GoodHeader(c: Config, h: Header): bool {
    h.magic == c.magic && h.blockLen == c.bytesPerBlock && h.samples == c.samplesPerBlock
  }

  // Blocks as the hardware sends them: 32-bit sequence numbers and full payloads.
  predicate Received(c: Config, blocks: seq<Block>) {
    forall k :: 0 <= k < |blocks| ==>
      blocks[k].header.sequence < 0x1_0000_0000 && |blocks[k].payload| == c.samplesPerBlock
  }

  predicate Follows(a: Block, b: Block) {
    b.header.sequence == (a.header.sequence + 1) % 0x1_0000_0000
  }

  function Payload(blocks: seq<Block>): seq<Cs16> {
    if blocks == [] then [] else Payload(blocks[..|blocks| - 1]) + blocks[|blocks| - 1].payload
  }

  lemma {:induction false} PayloadLength(c: Config, blocks: seq<Block>)
    requires Received(c, blocks)
    ensures |Payload(blocks)| == |blocks| * c.samplesPerBlock
  {
    if blocks != [] {
      var n := |blocks| - 1;
      PayloadLength(c, blocks[..n]);
      OneMoreBlock(n, c.samplesPerBlock);
    }
  }

  lemma OneMoreBlock(n: nat, spb: nat)
    ensures (n + 1) * spb == n * spb + spb
  {
  }

  // ---------- one run ----------

  function Quotient(x: nat, d: nat): nat
    requires d > 0
  {
    x / d
  }

  // ADC samples before the first pending one, computed in 32 bits.
  function Position(c: Config, sequence: nat, partial: nat): nat {
    (sequence * c.samplesPerBlock - partial) % 0x1_0000_0000
  }

  function Timestamp(c: Config, sequence: nat, partial: nat): nat {
    Quotient(Position(c, sequence, partial), Ratio(c))
  }

  // Converts and hands over one run; without a buffer the run is dropped unconverted.
  ghost function DispatchRun(c: Config, s: Stream, sequence: nat, run: seq<Block>, available: bool): Stream
    requires ValidConfig(c) && |s.carries| == |c.fs|
    ensures |DispatchRun(c, s, sequence, run, available).carries| == |c.fs|
  {
    if !available then s
    else
      var r := Cascaded(c.fs, s.carries, Payload(run));
      Stream(r.carries,
             (s.partial + |run| * c.samplesPerBlock) % Ratio(c),
             s.log + [Buffer(Timestamp(c, sequence, s.partial), r.out)])
  }

  /** After a run the counter still equals what the decimators hold, and the buffer's
      count is the number of whole output samples, which fits the user's buffer. */
  lemma RunConsistent(c: Config, s: Stream, sequence: nat, run: seq<Block>, available: bool)
    requires ValidConfig(c) && Consistent(c, s) && Received(c, run)
    ensures Consistent(c, DispatchRun(c, s, sequence, run, available))
    ensures |Cascaded(c.fs, s.carries, Payload(run)).out| == (s.partial + |run| * c.samplesPerBlock) / Ratio(c)
    ensures |run| * c.samplesPerBlock <= c.bufferSize * Ratio(c) ==>
              |Cascaded(c.fs, s.carries, Payload(run)).out| <= c.bufferSize
  {
    hide Cascaded, Primed, Pending, Shaped, Received, Pow2;
    PayloadLength(c, run);
    CascadeCount(c.fs, s.carries, Payload(run));
    PendingBelow(c.fs, s.carries);
    if |run| * c.samplesPerBlock <= c.bufferSize * Ratio(c) {
      QuotientBound(s.partial + |run| * c.samplesPerBlock, Ratio(c), c.bufferSize);
    }
  }

  lemma QuotientBound(x: nat, d: nat, n: nat)
    requires d > 0 && x < n * d + d
    ensures x / d <= n
  {
    if x / d > n { RealMath.IntMulLessEq(n + 1, x / d, d); }
  }

  // ---------- runs ----------

  // Maximal runs of consecutive sequence numbers, in order.
  function Runs(blocks: seq<Block>): (r: seq<seq<Block>>)
    ensures blocks != [] ==> r != []
  {
    if blocks == [] then []
    else
      var n := |blocks| - 1;
      var before := Runs(blocks[..n]);
      if n > 0 && Follows(blocks[n - 1], blocks[n]) then
        before[..|before| - 1] + [before[|before| - 1] + [blocks[n]]]
      else before + [[blocks[n]]]
  }

  ghost predicate RunOk(run: seq<Block>) {
    run != [] && forall k :: 0 < k < |run| ==> Follows(run[k - 1], run[k])
  }

  ghost predicate Cut(a: seq<Block>, b: seq<Block>) {
    a != [] && b != [] && !Follows(Last(a), b[0])
  }

  ghost predicate Partition(blocks: seq<Block>, runs: seq<seq<Block>>) {
    && Flatten(runs) == blocks
    && (forall k :: 0 <= k < |runs| ==> RunOk(runs[k]))
    && (forall k :: 0 < k < |runs| ==> Cut(runs[k - 1], runs[k]))
  }

  function Last<T>(run: seq<T>): T
    requires run != []
  {
    run[|run| - 1]
  }

  function Flatten(runs: seq<seq<Block>>): seq<Block> {
    if runs == [] then [] else Flatten(runs[..|runs| - 1]) + runs[|runs| - 1]
  }

  lemma LongerRun(run: seq<Block>, b: Block)
    requires RunOk(run) && Follows(Last(run), b)
    ensures RunOk(run + [b])
    ensures forall a :: Cut(a, run) ==> Cut(a, run + [b])
  {
  }

  lemma ExtendFlatten(front: seq<seq<Block>>, last: seq<Block>, b: Block)
    ensures Flatten(front + [last + [b]]) == Flatten(front + [last]) + [b]
  {
    hide Flatten;
    FlattenAppend(front, last);
    FlattenAppend(front, last + [b]);
  }

  lemma ExtendCuts(front: seq<seq<Block>>, last: seq<Block>, longer: seq<Block>)
    requires forall a :: Cut(a, last) ==> Cut(a, longer)
    requires forall k :: 0 < k < |front + [last]| ==> Cut((front + [last])[k - 1], (front + [last])[k])
    ensures forall k :: 0 < k < |front + [longer]| ==> Cut((front + [longer])[k - 1], (front + [longer])[k])
  {
    hide Cut;
    forall k | 0 < k < |front + [longer]| ensures Cut((front + [longer])[k - 1], (front + [longer])[k]) {
      assert Cut((front + [last])[k - 1], (front + [last])[k]);
    }
  }

  lemma ExtendRun(front: seq<seq<Block>>, last: seq<Block>, b: Block)
    requires Partition(Flatten(front + [last]), front + [last]) && last != [] && Follows(Last(last), b)
    ensures Partition(Flatten(front + [last]) + [b], front + [last + [b]])
  {
    hide RunOk, Cut, Follows, Flatten;
    assert RunOk((front + [last])[|front|]);
    LongerRun(last, b);
    ExtendFlatten(front, last, b);
    ExtendCuts(front, last, last + [b]);
    forall k | 0 <= k < |front| ensures RunOk(front[k]) {
      assert RunOk((front + [last])[k]);
    }
  }

  lemma FlattenAppend(runs: seq<seq<Block>>, run: seq<Block>)
    ensures Flatten(runs + [run]) == Flatten(runs) + run
  {
    assert (runs + [run])[..|runs|] == runs;
  }

  lemma NewCuts(runs: seq<seq<Block>>, run: seq<Block>)
    requires forall k :: 0 < k < |runs| ==> Cut(runs[k - 1], runs[k])
    requires runs == [] || Cut(runs[|runs| - 1], run)
    ensures forall k :: 0 < k < |runs + [run]| ==> Cut((runs + [run])[k - 1], (runs + [run])[k])
  {
    hide Cut;
  }

  lemma NewRun(runs: seq<seq<Block>>, b: Block)
    requires Partition(Flatten(runs), runs)
    requires runs == [] || (runs[|runs| - 1] != [] && !Follows(Last(runs[|runs| - 1]), b))
    ensures Partition(Flatten(runs) + [b], runs + [[b]])
  {
    hide Flatten, Follows, RunOk;
    FlattenAppend(runs, [b]);
    SingleRun(b);
    NewCuts(runs, [b]);
  }

  lemma SingleRun(b: Block)
    ensures RunOk([b])
  {
  }

  lemma LastOfFlatten(runs: seq<seq<Block>>)
    requires runs != [] && runs[|runs| - 1] != []
    ensures Flatten(runs) != [] && Last(Flatten(runs)) == Last(runs[|runs| - 1])
  {
  }

  /** The runs are exactly the maximal stretches of consecutive blocks. */
  lemma {:induction false} RunsPartition(blocks: seq<Block>)
    ensures Partition(blocks, Runs(blocks))
  {
    hide Partition, Flatten, Follows;
    if blocks == [] {
      NoRuns();
    } else {
      var n := |blocks| - 1;
      var before := Runs(blocks[..n]);
      RunsPartition(blocks[..n]);
      PartitionFacts(blocks[..n], before);
      assert blocks == blocks[..n] + [blocks[n]];
      if before != [] { LastOfFlatten(before); }
      if n > 0 && Follows(blocks[n - 1], blocks[n]) {
        assert before == before[..|before| - 1] + [before[|before| - 1]];
        ExtendRun(before[..|before| - 1], before[|before| - 1], blocks[n]);
      } else {
        NewRun(before, blocks[n]);
      }
    }
  }

  lemma NoRuns()
    ensures Partition([], [])
  {
  }

  lemma PartitionFacts(blocks: seq<Block>, runs: seq<seq<Block>>)
    requires Partition(blocks, runs)
    ensures Flatten(runs) == blocks && (runs != [] ==> runs[|runs| - 1] != [])
    ensures runs == [] ==> blocks == []
  {
  }

  // ---------- a whole transfer ----------

  // The runs in order; the k-th gets a buffer if available(k).
  ghost function DispatchAll(c: Config, s: Stream, runs: seq<seq<Block>>, available: nat -> bool): (r: Stream)
    requires ValidConfig(c) && |s.carries| == |c.fs| && forall k :: 0 <= k < |runs| ==> runs[k] != []
    ensures |r.carries| == |c.fs|
    decreases |runs|
  {
    if runs == [] then s
    else
      var n := |runs| - 1;
      DispatchRun(c, DispatchAll(c, s, runs[..n], available), runs[n][0].header.sequence, runs[n], available(n))
  }

  lemma {:induction false} RunsNonEmpty(blocks: seq<Block>, k: nat)
    requires k < |Runs(blocks)|
    ensures Runs(blocks)[k] != []
  {
    hide Flatten, Follows;
    RunsPartition(blocks);
    assert RunOk(Runs(blocks)[k]);
  }

  lemma RunsAllNonEmpty(blocks: seq<Block>)
    ensures forall k :: 0 <= k < |Runs(blocks)| ==> Runs(blocks)[k] != []
  {
    forall k | 0 <= k < |Runs(blocks)| ensures Runs(blocks)[k] != [] { RunsNonEmpty(blocks, k); }
  }

  // Index of the first block whose header is wrong.
  function FirstBad(c: Config, blocks: seq<Block>): (r: nat)
    ensures r <= |blocks| && (r < |blocks| ==> !GoodHeader(c, blocks[r].header))
    ensures forall k :: 0 <= k < r ==> GoodHeader(c, blocks[k].header)
  {
    if blocks == [] then 0
    else
      var r := FirstBad(c, blocks[..|blocks| - 1]);
      if r < |blocks| - 1 then r else if GoodHeader(c, blocks[r].header) then r + 1 else r
  }

  lemma FirstBadIs(c: Config, blocks: seq<Block>, k: nat)
    requires k <= |blocks| && forall j :: 0 <= j < k ==> GoodHeader(c, blocks[j].header)
    requires k == |blocks| || !GoodHeader(c, blocks[k].header)
    ensures FirstBad(c, blocks) == k
  {
  }

  // What a transfer leads to: all runs if its format is right, else the runs that end
  // before the one with the first bad header. An empty transfer still makes a callback.
  ghost function Dispatched(c: Config, s: Stream, blocks: seq<Block>, extra: nat, stale: nat, available: nat -> bool): Stream
    requires ValidConfig(c) && |s.carries| == |c.fs|
  {
    RunsAllNonEmpty(blocks);
    RunsAllNonEmpty(blocks[..FirstBad(c, blocks)]);
    if extra != 0 then s
    else if blocks == [] then DispatchRun(c, s, stale, [], available(0))
    else if FirstBad(c, blocks) == |blocks| then DispatchAll(c, s, Runs(blocks), available)
    else DispatchAll(c, s, Closed(blocks[..FirstBad(c, blocks)]), available)
  }

  // All runs but the last.
  function Closed(blocks: seq<Block>): seq<seq<Block>> {
    if blocks == [] then [] else Runs(blocks)[..|Runs(blocks)| - 1]
  }

  class Dispatcher {
    const c: Config
    var carries: seq<seq<Cs16>>
    var partial: nat
    var log: seq<Buffer>

    ghost predicate Valid()
      reads this
    {
      ValidConfig(c) && Consistent(c, State())
    }

    function State(): Stream
      reads this
    {
      Stream(carries, partial, log)
    }

    // At the start of streaming the decimators are reset and nothing is pending.
    constructor (c: Config)
      requires ValidConfig(c)
      ensures Valid() && this.c == c && partial == 0 && log == [] && carries == Fresh(c.fs)
    {
      this.c := c;
      partial := 0;
      log := [];
      carries := seq(|c.fs|, k requires 0 <= k < |c.fs| => seq(c.fs[k].ntaps - 1, _ => Cs16(0, 0)));
      new;
      FreshPending(c.fs);
      assert carries == Fresh(c.fs);
    }

    // The chain of stages on values; module Converter has its loop over the work buffers.
    method Convert(run: seq<Block>) returns (samples: seq<Cs16>)
      requires Valid()
      modifies this`carries
      ensures samples == Cascaded(c.fs, old(carries), Payload(run)).out
      ensures carries == Cascaded(c.fs, old(carries), Payload(run)).carries
    {
      hide CallOutput, CallRest, HalfbandShape, Pending, Cascaded;
      samples := Payload(run);
      var cs, now: seq<seq<Cs16>> := carries, [];
      NoStages(c.fs, cs, samples);
      for k := 0 to |c.fs|
        invariant Cascaded(c.fs[..k], cs[..k], Payload(run)) == Run(now, samples)
      {
        OneMoreStage(c.fs, cs, Payload(run), k);
        now := now + [CallRest(c.fs[k], cs[k], samples)];
        samples := CallOutput(c.fs[k], cs[k], samples);
      }
      assert c.fs[..|c.fs|] == c.fs && cs[..|c.fs|] == cs;
      carries := now;
    }

    method DispatchContiguous(sequence: nat, run: seq<Block>, available: bool)
      requires Valid() && Received(c, run) && |run| * c.samplesPerBlock <= c.bufferSize * Ratio(c)
      modifies this
      ensures Valid() && State() == DispatchRun(c, old(State()), sequence, run, available)
    {
      hide Cascaded, Primed, Pending, Shaped, Pow2;
      RunConsistent(c, State(), sequence, run, available);
      var adcSamples := |run| * c.samplesPerBlock;
      var userSamples := adcSamples / Ratio(c);
      assert userSamples <= c.bufferSize by { QuotientBound(adcSamples, Ratio(c), c.bufferSize); }
      if !available { return; }
      var before := partial;
      var samples := Convert(run);
      log := log + [Buffer(Timestamp(c, sequence, before), samples)];
      partial := (before + adcSamples) % Ratio(c);
    }

    /** Dispatches a completed transfer of whole blocks plus `extra` bytes. `stale` is the
        sequence number left in the buffer's first header, used if the transfer is empty. */
    method DispatchTransfer(blocks: seq<Block>, extra: nat, stale: nat, available: nat -> bool)
      returns (r: Result<nat, FormatError>)
      requires Valid() && Received(c, blocks) && |blocks| * c.samplesPerBlock <= c.bufferSize * Ratio(c)
      modifies this
      ensures Valid() && State() == Dispatched(c, old(State()), blocks, extra, stale, available)
      ensures r.Ok? <==>
              extra == 0 && forall k :: 0 <= k < |blocks| ==>
                blocks[k].header.magic == c.magic && blocks[k].header.blockLen == c.bytesPerBlock &&
                blocks[k].header.samples == c.samplesPerBlock
      ensures r.Ok? ==> r.value == if blocks == [] then 1 else |Runs(blocks)|
    {
      hide DispatchRun, DispatchAll, Runs, Ratio, Received, Consistent, ValidConfig, Follows, Scanned, Dispatched, FirstBad;
      ghost var s0 := State();
      SameStages(c, s0);
      if extra != 0 {
        PartialBlock(c, s0, blocks, extra, stale, available);
        return Err(TransferFormat);
      }
      var start, expected, calls := 0, 0, 0;
      NothingScanned(c, s0, blocks, available);
      for k := 0 to |blocks|
        invariant Valid() && start >= 0 && calls >= 0 && forall j :: 0 <= j < k ==> GoodHeader(c, blocks[j].header)
        invariant k > 0 ==> expected == (blocks[k - 1].header.sequence + 1) % 0x1_0000_0000
        invariant Scanned(c, s0, blocks, available, k, start, calls, State())
      {
        var h := blocks[k].header;
        ScanBounds(c, s0, blocks, available, k, start, calls, State());
        RunBounds(c, blocks, start, k);
        if k > 0 { FollowsIs(blocks[k - 1], blocks[k]); }
        ScanStep(c, s0, blocks, available, k, start, calls, State());
        if !GoodHeader(c, h) {
          FirstBadIs(c, blocks, k);
          ScanFailed(c, s0, blocks, stale, available, k, start, calls, State());
          return Err(TransferFormat);
        }
        if k != 0 && h.sequence != expected {
          DispatchContiguous(blocks[start].header.sequence, blocks[start..k], available(calls));
          start, calls := k, calls + 1;
        }
        expected := (h.sequence + 1) % 0x1_0000_0000;
      }
      FirstBadIs(c, blocks, |blocks|);
      ScanBounds(c, s0, blocks, available, |blocks|, start, calls, State());
      RunBounds(c, blocks, start, |blocks|);
      assert blocks[start..|blocks|] == blocks[start..];
      ScanDone(c, s0, blocks, stale, available, start, calls, State());
      DispatchContiguous(if start < |blocks| then blocks[start].header.sequence else stale, blocks[start..], available(calls));
      return Ok(calls + 1);
    }
  }

  lemma NoStages(fs: seq<Filter>, cs: seq<seq<Cs16>>, input: seq<Cs16>)
    requires Shaped(fs) && |cs| == |fs|
    ensures Cascaded(fs[..0], cs[..0], input) == Run([], input)
  {
  }

  lemma OneMoreStage(fs: seq<Filter>, cs: seq<seq<Cs16>>, input: seq<Cs16>, k: nat)
    requires Shaped(fs) && |cs| == |fs| && k < |fs|
    ensures Cascaded(fs[..k + 1], cs[..k + 1], input)
            == Run(Cascaded(fs[..k], cs[..k], input).carries + [CallRest(fs[k], cs[k], Cascaded(fs[..k], cs[..k], input).out)],
                   CallOutput(fs[k], cs[k], Cascaded(fs[..k], cs[..k], input).out))
  {
    hide CallOutput, CallRest, HalfbandShape;
    assert fs[..k + 1][..k] == fs[..k] && cs[..k + 1][..k] == cs[..k];
  }

  // After k blocks: all runs but the last are dispatched, and the last starts at `start`.
  ghost predicate Scanned(c: Config, s0: Stream, blocks: seq<Block>, available: nat -> bool,
                          k: nat, start: nat, calls: nat, s: Stream)
  {
    && ValidConfig(c) && |s0.carries| == |c.fs| && k <= |blocks|
    && start <= k && (k > 0 ==> start < k)
    && (forall j :: 0 <= j < calls <= |Closed(blocks[..k])| ==> Closed(blocks[..k])[j] != [])
    && calls == |Closed(blocks[..k])|
    && s == DispatchAll(c, s0, Closed(blocks[..k]), available)
    && (k > 0 ==> Runs(blocks[..k]) == Closed(blocks[..k]) + [blocks[start..k]])
  }

  lemma NothingScanned(c: Config, s0: Stream, blocks: seq<Block>, available: nat -> bool)
    requires ValidConfig(c) && |s0.carries| == |c.fs|
    ensures Scanned(c, s0, blocks, available, 0, 0, 0, s0)
  {
  }

  lemma RunBounds(c: Config, blocks: seq<Block>, start: nat, k: nat)
    requires Received(c, blocks) && start <= k <= |blocks| && |blocks| * c.samplesPerBlock <= c.bufferSize * Ratio(c)
    ensures Received(c, blocks[start..k]) && |blocks[start..k]| * c.samplesPerBlock <= c.bufferSize * Ratio(c)
  {
    hide Ratio;
    RealMath.IntMulLessEq(k - start, |blocks|, c.samplesPerBlock);
  }

  lemma PartialBlock(c: Config, s: Stream, blocks: seq<Block>, extra: nat, stale: nat, available: nat -> bool)
    requires ValidConfig(c) && |s.carries| == |c.fs| && extra != 0
    ensures Dispatched(c, s, blocks, extra, stale, available) == s
  {
  }

  lemma SameStages(c: Config, s: Stream)
    requires Consistent(c, s)
    ensures |s.carries| == |c.fs|
  {
  }

  lemma FollowsIs(a: Block, b: Block)
    ensures Follows(a, b) <==> b.header.sequence == (a.header.sequence + 1) % 0x1_0000_0000
  {
  }

  lemma ScanBounds(c: Config, s0: Stream, blocks: seq<Block>, available: nat -> bool,
                   k: nat, start: nat, calls: nat, s: Stream)
    requires Scanned(c, s0, blocks, available, k, start, calls, s)
    ensures start <= k <= |blocks| && (k > 0 ==> start < k)
  {
  }

  lemma RunsOfMore(front: seq<Block>, b: Block)
    requires front != []
    ensures Follows(Last(front), b) ==>
              Runs(front + [b]) == Runs(front)[..|Runs(front)| - 1] + [Last(Runs(front)) + [b]]
    ensures !Follows(Last(front), b) ==> Runs(front + [b]) == Runs(front) + [[b]]
  {
    hide Follows;
    assert (front + [b])[..|front|] == front;
  }

  // Adding block k to the blocks before it, when it follows and when it does not.
  lemma RunsExtend(blocks: seq<Block>, k: nat, start: nat)
    requires start < k < |blocks| && Follows(blocks[k - 1], blocks[k])
    requires Runs(blocks[..k]) == Closed(blocks[..k]) + [blocks[start..k]]
    ensures Closed(blocks[..k + 1]) == Closed(blocks[..k])
    ensures Runs(blocks[..k + 1]) == Closed(blocks[..k]) + [blocks[start..k + 1]]
  {
    hide Follows, Runs;
    assert blocks[..k + 1] == blocks[..k] + [blocks[k]];
    assert blocks[start..k] + [blocks[k]] == blocks[start..k + 1];
    RunsOfMore(blocks[..k], blocks[k]);
  }

  lemma RunsClose(blocks: seq<Block>, k: nat, start: nat)
    requires start < k < |blocks| && !Follows(blocks[k - 1], blocks[k])
    requires Runs(blocks[..k]) == Closed(blocks[..k]) + [blocks[start..k]]
    ensures Closed(blocks[..k + 1]) == Closed(blocks[..k]) + [blocks[start..k]]
    ensures Runs(blocks[..k + 1]) == Closed(blocks[..k + 1]) + [blocks[k..k + 1]]
  {
    hide Follows, Runs;
    assert blocks[..k + 1] == blocks[..k] + [blocks[k]];
    assert [blocks[k]] == blocks[k..k + 1];
    RunsOfMore(blocks[..k], blocks[k]);
  }

  lemma RunsFirst(blocks: seq<Block>)
    requires blocks != []
    ensures Closed(blocks[..1]) == [] && Closed(blocks[..0]) == [] && Runs(blocks[..1]) == [blocks[0..1]]
  {
    assert blocks[..0] == [] && blocks[..1][..0] == [] && [blocks[0]] == blocks[0..1];
    assert Runs(blocks[..1]) == Runs([]) + [[blocks[0]]];
  }

  lemma DispatchOneMore(c: Config, s: Stream, runs: seq<seq<Block>>, run: seq<Block>, available: nat -> bool)
    requires ValidConfig(c) && |s.carries| == |c.fs| && run != [] && forall k :: 0 <= k < |runs| ==> runs[k] != []
    ensures forall k :: 0 <= k < |runs + [run]| ==> (runs + [run])[k] != []
    ensures DispatchAll(c, s, runs + [run], available)
            == DispatchRun(c, DispatchAll(c, s, runs, available), run[0].header.sequence, run, available(|runs|))
  {
    hide DispatchRun, ValidConfig;
    assert (runs + [run])[..|runs|] == runs;
  }

  // One more block either extends the open run or closes it.
  lemma ScanStep(c: Config, s0: Stream, blocks: seq<Block>, available: nat -> bool,
                 k: nat, start: nat, calls: nat, s: Stream)
    requires k < |blocks| && Scanned(c, s0, blocks, available, k, start, calls, s)
    ensures |s.carries| == |c.fs|
    ensures k == 0 || Follows(blocks[k - 1], blocks[k]) ==> Scanned(c, s0, blocks, available, k + 1, start, calls, s)
    ensures k > 0 && !Follows(blocks[k - 1], blocks[k]) ==>
              Scanned(c, s0, blocks, available, k + 1, k, calls + 1,
                      DispatchRun(c, s, blocks[start].header.sequence, blocks[start..k], available(calls)))
  {
    hide DispatchRun, ValidConfig, Follows, Runs, DispatchAll, Closed;
    if k == 0 {
      RunsFirst(blocks);
    } else if Follows(blocks[k - 1], blocks[k]) {
      RunsExtend(blocks, k, start);
    } else {
      RunsClose(blocks, k, start);
      DispatchOneMore(c, s0, Closed(blocks[..k]), blocks[start..k], available);
    }
  }

  lemma ScanFailed(c: Config, s0: Stream, blocks: seq<Block>, stale: nat, available: nat -> bool,
                   k: nat, start: nat, calls: nat, s: Stream)
    requires k < |blocks| && Scanned(c, s0, blocks, available, k, start, calls, s) && FirstBad(c, blocks) == k
    ensures s == Dispatched(c, s0, blocks, 0, stale, available)
  {
    hide DispatchRun, DispatchAll, ValidConfig;
  }

  lemma ScanDone(c: Config, s0: Stream, blocks: seq<Block>, stale: nat, available: nat -> bool,
                 start: nat, calls: nat, s: Stream)
    requires Scanned(c, s0, blocks, available, |blocks|, start, calls, s) && FirstBad(c, blocks) == |blocks|
    ensures |s.carries| == |c.fs|
    ensures DispatchRun(c, s, if start < |blocks| then blocks[start].header.sequence else stale, blocks[start..], available(calls))
            == Dispatched(c, s0, blocks, 0, stale, available)
    ensures calls + 1 == if blocks == [] then 1 else |Runs(blocks)|
  {
    hide DispatchRun, ValidConfig, Runs, DispatchAll;
    assert blocks[..|blocks|] == blocks && blocks[start..|blocks|] == blocks[start..];
    if blocks == [] {
      assert Closed(blocks) == [] && DispatchAll(c, s0, [], available) == s0 by { NothingDispatched(c, s0, available); }
    } else {
      DispatchOneMore(c, s0, Closed(blocks), blocks[start..], available);
    }
  }

  lemma NothingDispatched(c: Config, s: Stream, available: nat -> bool)
    requires ValidConfig(c) && |s.carries| == |c.fs|
    ensures DispatchAll(c, s, [], available) == s
  {
  }
}
