/** From transfers to timestamps: transfers whose block numbers move forward are cut into
    runs that move forward, so the buffers of a whole stream come in order. */
module StreamOrder {
  import opened Wrappers
  import opened Fixed16
  import opened StreamDispatch
  import opened StreamTimestamps

  // ---------- one transfer ----------

  ghost predicate Rising(blocks: seq<Block>) {
    forall k :: 0 < k < |blocks| ==> blocks[k - 1].header.sequence < blocks[k].header.sequence
  }

  // The sequence number after the last block.
  function After(blocks: seq<Block>): nat
    requires blocks != []
  {
    Last(blocks).header.sequence + 1
  }

  // Blocks that come in order, none before `from` and none reaching position 2^32. There may
  // be gaps.
  ghost predicate Arriving(c: Config, from: nat, blocks: seq<Block>) {
    && blocks != [] && Received(c, blocks) && Rising(blocks)
    && from <= blocks[0].header.sequence
    && After(blocks) * c.samplesPerBlock < 0x1_0000_0000
  }

  lemma ArrivingFront(c: Config, from: nat, blocks: seq<Block>, b: Block)
    requires blocks != [] && Arriving(c, from, blocks + [b])
    ensures Arriving(c, from, blocks)
    ensures After(blocks) <= b.header.sequence < 0x1_0000_0000 && |b.payload| == c.samplesPerBlock
    ensures After(blocks + [b]) == b.header.sequence + 1
  {
    var all := blocks + [b];
    assert all[..|blocks|] == blocks && all[|blocks|] == b && all[|blocks| - 1] == Last(blocks);
    assert forall k :: 0 <= k < |blocks| ==> all[k] == blocks[k];
    MulForward(After(blocks), After(all), c.samplesPerBlock);
  }

  lemma SegmentsMore(runs: seq<seq<Block>>, run: seq<Block>, available: nat -> bool)
    requires run != [] && forall k :: 0 <= k < |runs| ==> runs[k] != []
    ensures forall k :: 0 <= k < |runs + [run]| ==> (runs + [run])[k] != []
    ensures Segments(runs + [run], available)
            == Segments(runs, available) + [Segment(run[0].header.sequence, run, available(|runs|))]
  {
  }

  lemma ForwardMore(c: Config, segs: seq<Segment>, last: Segment)
    requires Forward(c, segs) && Received(c, last.run) && End(segs) <= last.sequence
    requires (last.sequence + |last.run|) * c.samplesPerBlock < 0x1_0000_0000
    ensures Forward(c, segs + [last]) && End(segs + [last]) == last.sequence + |last.run|
  {
    hide Received;
    assert (segs + [last])[..|segs|] == segs;
  }

  lemma ForwardParts(c: Config, segs: seq<Segment>, last: Segment)
    requires Forward(c, segs + [last])
    ensures Forward(c, segs) && Received(c, last.run) && End(segs) <= last.sequence
    ensures End(segs + [last]) == last.sequence + |last.run|
  {
    hide Received;
    assert (segs + [last])[..|segs|] == segs;
  }

  // A block that follows on makes the last run longer.
  lemma ForwardLonger(c: Config, segs: seq<Segment>, last: Segment, b: Block)
    requires Forward(c, segs + [last]) && End(segs + [last]) == b.header.sequence
    requires b.header.sequence < 0x1_0000_0000 && |b.payload| == c.samplesPerBlock
    requires (b.header.sequence + 1) * c.samplesPerBlock < 0x1_0000_0000
    ensures Forward(c, segs + [last.(run := last.run + [b])])
    ensures End(segs + [last.(run := last.run + [b])]) == b.header.sequence + 1
  {
    ForwardParts(c, segs, last);
    ForwardMore(c, segs, last.(run := last.run + [b]));
  }

  lemma FollowsNext(a: Block, b: Block)
    requires a.header.sequence < b.header.sequence < 0x1_0000_0000
    ensures Follows(a, b) <==> b.header.sequence == a.header.sequence + 1
  {
  }

  // What the runs of a transfer add to the segments so far.
  ghost predicate Joins(c: Config, segs: seq<Segment>, runs: seq<seq<Block>>, available: nat -> bool, end: nat) {
    && runs != []
    && (forall k :: 0 <= k < |runs| ==> runs[k] != [])
    && Forward(c, segs + Segments(runs, available))
    && End(segs + Segments(runs, available)) == end
  }

  lemma JoinsFirst(c: Config, segs: seq<Segment>, b: Block, available: nat -> bool)
    requires Forward(c, segs) && Arriving(c, End(segs), [b])
    ensures Joins(c, segs, [[b]], available, After([b]))
  {
    hide Forward, End;
    var last := Segment(b.header.sequence, [b], available(0));
    ForwardMore(c, segs, last);
    assert Segments([[b]], available) == [last];
  }

  lemma JoinsNew(c: Config, segs: seq<Segment>, runs: seq<seq<Block>>, b: Block, available: nat -> bool, end: nat)
    requires Joins(c, segs, runs, available, end) && end <= b.header.sequence < 0x1_0000_0000
    requires |b.payload| == c.samplesPerBlock && (b.header.sequence + 1) * c.samplesPerBlock < 0x1_0000_0000
    ensures Joins(c, segs, runs + [[b]], available, b.header.sequence + 1)
  {
    hide Forward, End;
    SegmentsMore(runs, [b], available);
    var all, last := segs + Segments(runs, available), Segment(b.header.sequence, [b], available(|runs|));
    ForwardMore(c, all, last);
    assert segs + Segments(runs + [[b]], available) == all + [last];
  }

  lemma JoinsLonger(c: Config, segs: seq<Segment>, front: seq<seq<Block>>, run: seq<Block>, b: Block,
                    available: nat -> bool, end: nat)
    requires run != [] && Joins(c, segs, front + [run], available, end) && end == b.header.sequence < 0x1_0000_0000
    requires forall k :: 0 <= k < |front| ==> front[k] != []
    requires |b.payload| == c.samplesPerBlock && (b.header.sequence + 1) * c.samplesPerBlock < 0x1_0000_0000
    ensures Joins(c, segs, front + [run + [b]], available, b.header.sequence + 1)
  {
    hide Forward, End;
    SegmentsMore(front, run, available);
    SegmentsMore(front, run + [b], available);
    var before, last := segs + Segments(front, available), Segment(run[0].header.sequence, run, available(|front|));
    assert segs + Segments(front + [run], available) == before + [last];
    ForwardLonger(c, before, last, b);
    assert segs + Segments(front + [run + [b]], available) == before + [last.(run := run + [b])];
  }

  /** The runs cut from blocks that move forward move forward, and end where the blocks end. */
  lemma {:induction false} RunsForward(c: Config, segs: seq<Segment>, blocks: seq<Block>, available: nat -> bool)
    requires Forward(c, segs) && Arriving(c, End(segs), blocks)
    ensures Joins(c, segs, Runs(blocks), available, After(blocks))
    decreases |blocks|
  {
    hide Forward, End, Arriving, Runs, Joins, Follows;
    ArrivingBound(c, End(segs), blocks);
    var front, b := blocks[..|blocks| - 1], blocks[|blocks| - 1];
    assert blocks == front + [b];
    if front == [] {
      OneRun(b);
      JoinsFirst(c, segs, b, available);
    } else {
      ArrivingFront(c, End(segs), front, b);
      RunsForward(c, segs, front, available);
      RunsOfMore(front, b);
      FollowsNext(Last(front), b);
      var runs := Runs(front);
      RunsAllNonEmpty(front);
      if Follows(Last(front), b) {
        assert runs == runs[..|runs| - 1] + [Last(runs)];
        JoinsLonger(c, segs, runs[..|runs| - 1], Last(runs), b, available, After(front));
      } else {
        JoinsNew(c, segs, runs, b, available, After(front));
      }
    }
  }

  lemma OneRun(b: Block)
    ensures Runs([b]) == [[b]]
  {
    assert [b][..0] == [];
  }

  lemma ArrivingBound(c: Config, from: nat, blocks: seq<Block>)
    requires Arriving(c, from, blocks)
    ensures blocks != [] && After(blocks) * c.samplesPerBlock < 0x1_0000_0000
  {
  }

  // ---------- every outcome of a transfer ----------

  lemma {:induction false} ForwardPrefix(c: Config, segs: seq<Segment>, more: seq<Segment>)
    requires Forward(c, segs + more)
    ensures Forward(c, segs) && End(segs) <= End(segs + more)
    decreases |more|
  {
    if more == [] {
      assert segs + more == segs;
    } else {
      var n := |more| - 1;
      assert segs + more == (segs + more[..n]) + [more[n]];
      ForwardParts(c, segs + more[..n], more[n]);
      ForwardPrefix(c, segs, more[..n]);
    }
  }

  lemma {:induction false} ArrivingPrefix(c: Config, from: nat, blocks: seq<Block>, k: nat)
    requires Arriving(c, from, blocks) && 0 < k <= |blocks|
    ensures Arriving(c, from, blocks[..k]) && After(blocks[..k]) <= After(blocks)
    decreases |blocks|
  {
    var n := |blocks| - 1;
    if k <= n {
      assert blocks == blocks[..n] + [blocks[n]];
      ArrivingFront(c, from, blocks[..n], blocks[n]);
      ArrivingPrefix(c, from, blocks[..n], k);
      assert blocks[..n][..k] == blocks[..k];
    } else {
      assert blocks[..k] == blocks;
    }
  }

  // The runs a transfer dispatches: all, or those closed before the first bad header.
  function DispatchedRuns(c: Config, blocks: seq<Block>): seq<seq<Block>> {
    if FirstBad(c, blocks) == |blocks| then Runs(blocks) else Closed(blocks[..FirstBad(c, blocks)])
  }

  lemma DispatchedRunsForward(c: Config, segs: seq<Segment>, blocks: seq<Block>, available: nat -> bool)
    requires Forward(c, segs) && Arriving(c, End(segs), blocks)
    ensures forall k :: 0 <= k < |DispatchedRuns(c, blocks)| ==> DispatchedRuns(c, blocks)[k] != []
    ensures Forward(c, segs + Segments(DispatchedRuns(c, blocks), available))
    ensures End(segs + Segments(DispatchedRuns(c, blocks), available)) <= After(blocks)
  {
    hide Forward, End, Arriving, Runs, FirstBad;
    ArrivingBound(c, End(segs), blocks);
    var bad := FirstBad(c, blocks);
    if bad == |blocks| {
      RunsForward(c, segs, blocks, available);
    } else if bad == 0 {
      NothingClosed(c, segs, blocks, available);
    } else {
      ArrivingPrefix(c, End(segs), blocks, bad);
      RunsForward(c, segs, blocks[..bad], available);
      AllButLast(c, segs, Runs(blocks[..bad]), available);
    }
  }

  lemma NothingClosed(c: Config, segs: seq<Segment>, blocks: seq<Block>, available: nat -> bool)
    requires Arriving(c, End(segs), blocks) && FirstBad(c, blocks) == 0
    ensures DispatchedRuns(c, blocks) == [] && segs + Segments([], available) == segs && End(segs) <= After(blocks)
  {
    assert blocks[..0] == [];
    ArrivingPrefix(c, End(segs), blocks, 1);
  }

  lemma AllButLast(c: Config, segs: seq<Segment>, runs: seq<seq<Block>>, available: nat -> bool)
    requires runs != [] && forall k :: 0 <= k < |runs| ==> runs[k] != []
    requires Forward(c, segs + Segments(runs, available))
    ensures Forward(c, segs + Segments(runs[..|runs| - 1], available))
    ensures End(segs + Segments(runs[..|runs| - 1], available)) <= End(segs + Segments(runs, available))
  {
    hide Forward, End;
    var n := |runs| - 1;
    assert runs == runs[..n] + [runs[n]];
    SegmentsMore(runs[..n], runs[n], available);
    var last := Segment(runs[n][0].header.sequence, runs[n], available(n));
    assert segs + Segments(runs, available) == (segs + Segments(runs[..n], available)) + [last];
    ForwardPrefix(c, segs + Segments(runs[..n], available), [last]);
  }

  // ---------- a whole stream ----------

  // A completed transfer as it is dispatched; `extra` counts bytes beyond whole blocks.
  datatype Transfer = Transfer(blocks: seq<Block>, extra: nat, stale: nat, available: nat -> bool)

  ghost function AllDispatched(c: Config, s: Stream, transfers: seq<Transfer>): (r: Stream)
    requires ValidConfig(c) && |s.carries| == |c.fs|
    ensures |r.carries| == |c.fs|
    decreases |transfers|
  {
    if transfers == [] then s
    else
      var t := transfers[|transfers| - 1];
      DispatchedStages(c, AllDispatched(c, s, transfers[..|transfers| - 1]), t);
      Dispatched(c, AllDispatched(c, s, transfers[..|transfers| - 1]), t.blocks, t.extra, t.stale, t.available)
  }

  lemma DispatchedStages(c: Config, s: Stream, t: Transfer)
    requires ValidConfig(c) && |s.carries| == |c.fs|
    ensures |Dispatched(c, s, t.blocks, t.extra, t.stale, t.available).carries| == |c.fs|
  {
  }

  function Reached(transfers: seq<Transfer>): nat {
    if transfers == [] || Last(transfers).blocks == [] then 0 else After(Last(transfers).blocks)
  }

  // Block numbers move forward through all transfers.
  ghost predicate InOrder(c: Config, transfers: seq<Transfer>)
    decreases |transfers|
  {
    transfers == [] ||
    (InOrder(c, transfers[..|transfers| - 1]) &&
     Arriving(c, Reached(transfers[..|transfers| - 1]), Last(transfers).blocks))
  }

  lemma OneTransfer(c: Config, s: Stream, segs: seq<Segment>, t: Transfer) returns (more: seq<Segment>)
    requires ValidConfig(c) && |s.carries| == |c.fs| && Forward(c, segs) && Arriving(c, End(segs), t.blocks)
    ensures Forward(c, segs + more) && End(segs + more) <= After(t.blocks)
    ensures Dispatched(c, Fold(c, s, segs), t.blocks, t.extra, t.stale, t.available) == Fold(c, s, segs + more)
  {
    hide Forward, End, Runs, FirstBad, Fold, DispatchAll, DispatchRun, Closed, ValidConfig;
    if t.extra != 0 {
      more := [];
      assert segs + more == segs;
      ArrivingPrefix(c, End(segs), t.blocks, 1);
    } else {
      DispatchedRunsForward(c, segs, t.blocks, t.available);
      var runs := DispatchedRuns(c, t.blocks);
      more := Segments(runs, t.available);
      TransferContinuesFold(c, s, segs, runs, t.available);
    }
  }

  // Everything that a forward-moving stream of transfers does is a forward-moving fold of runs.
  lemma {:induction false} TransfersAreSegments(c: Config, s: Stream, transfers: seq<Transfer>) returns (segs: seq<Segment>)
    requires ValidConfig(c) && |s.carries| == |c.fs| && InOrder(c, transfers)
    ensures Forward(c, segs) && End(segs) <= Reached(transfers)
    ensures AllDispatched(c, s, transfers) == Fold(c, s, segs)
    decreases |transfers|
  {
    hide Forward, End, Dispatched, ValidConfig, Arriving;
    if transfers == [] {
      segs := [];
      StartOfFold(c, s);
    } else {
      var front, t := transfers[..|transfers| - 1], Last(transfers);
      segs := TransfersAreSegments(c, s, front);
      ArrivingEarlier(c, Reached(front), End(segs), t.blocks);
      var more := OneTransfer(c, s, segs, t);
      segs := segs + more;
    }
  }

  lemma StartOfFold(c: Config, s: Stream)
    requires ValidConfig(c) && |s.carries| == |c.fs|
    ensures Forward(c, []) && End([]) == 0 && Fold(c, s, []) == s
  {
  }

  lemma ArrivingEarlier(c: Config, from: nat, earlier: nat, blocks: seq<Block>)
    requires Arriving(c, from, blocks) && earlier <= from
    ensures Arriving(c, earlier, blocks) && blocks != []
  {
  }

  /** Over any stream of transfers whose block numbers move forward, whole or malformed, with
      gaps and with dropped runs, no buffer starts before the previous one ended, and the
      counter stays what the decimators hold. */
  lemma StreamInOrder(c: Config, s: Stream, transfers: seq<Transfer>)
    requires ValidConfig(c) && Consistent(c, s) && s.partial == 0 && s.log == [] && InOrder(c, transfers)
    ensures |s.carries| == |c.fs|
    ensures Ordered(AllDispatched(c, s, transfers).log) && Consistent(c, AllDispatched(c, s, transfers))
  {
    hide ValidConfig, Consistent, Fold, AllDispatched, InOrder, Forward;
    SameStages(c, s);
    var segs := TransfersAreSegments(c, s, transfers);
    TimestampsOrdered(c, s, segs);
  }
}
