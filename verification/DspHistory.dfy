/** The history wrapper around the block kernels, and cascades of decimators.

    A stage keeps the samples it could not use yet and prepends them to the next
    call's input. Cutting a stream into calls therefore never changes the output. */
module DspHistory {
  import opened Fixed16
  import opened Halfband
  import HalfbandNeon
  import HalfbandNeonExact
  import HalfbandRange

  // ---------- one stage, on sequences ----------

  // Outputs that `len` available samples allow for a filter of `ctx` taps.
  function Produced(ctx: nat, len: nat): nat {
    if len < ctx then 0 else (len - ctx + 1) / 2
  }

  function Output(f: Filter, s: seq<Cs16>): (r: seq<Cs16>)
    requires HalfbandShape(f)
    ensures |r| == Produced(f.ntaps, |s|)
  {
    BlockOut(f, s, 2 * Produced(f.ntaps, |s|))
  }

  function Rest(f: Filter, s: seq<Cs16>): (r: seq<Cs16>)
    requires HalfbandShape(f)
    ensures |r| == |s| - 2 * Produced(f.ntaps, |s|)
  {
    s[2 * Produced(f.ntaps, |s|)..]
  }

  // One call: what it writes, and what it keeps for the next call.
  function CallOutput(f: Filter, carried: seq<Cs16>, input: seq<Cs16>): (r: seq<Cs16>)
    requires HalfbandShape(f)
    ensures |r| == Produced(f.ntaps, |carried| + |input|)
  {
    Output(f, carried + input)
  }

  function CallRest(f: Filter, carried: seq<Cs16>, input: seq<Cs16>): seq<Cs16>
    requires HalfbandShape(f)
  {
    Rest(f, carried + input)
  }

  lemma {:induction false} DotShift(taps: seq<int16>, x: seq<Cs16>, y: seq<Cs16>, quad: bool, at: nat, shift: nat, n: nat)
    requires n <= |taps| && at + n <= |y| && shift + at + n <= |x|
    requires forall k :: at <= k < at + n ==> x[shift + k] == y[k]
    ensures Dot(taps, x, quad, shift + at, n) == Dot(taps, y, quad, at, n)
  {
    if n > 0 {
      hide Mul;
      DotShift(taps, x, y, quad, at, shift, n - 1);
      assert x[shift + (at + n - 1)] == y[at + n - 1];
    }
  }

  lemma FirShift(f: Filter, x: seq<Cs16>, y: seq<Cs16>, at: nat, shift: nat)
    requires f.ntaps <= |f.taps| && at + f.ntaps <= |y| && shift + at + f.ntaps <= |x|
    requires forall k :: at <= k < at + f.ntaps ==> x[shift + k] == y[k]
    ensures FirAt(f, x, shift + at) == FirAt(f, y, at)
  {
    hide Dot;
    DotShift(f.taps, x, y, false, at, shift, f.ntaps);
    DotShift(f.taps, x, y, true, at, shift, f.ntaps);
  }

  // A block only depends on the samples it covers.
  lemma BlockLocal(f: Filter, x: seq<Cs16>, y: seq<Cs16>, count: nat)
    requires HalfbandShape(f) && Covers(f, y, count) && |y| <= |x| && x[..|y|] == y
    ensures Covers(f, x, count) && BlockOut(f, x, count) == BlockOut(f, y, count)
  {
    hide FirAt, HalfbandShape;
    ShapeFacts(f);
    forall k: nat | k < count / 2 ensures FirAt(f, x, 2 * k) == FirAt(f, y, 2 * k) {
      assert forall i :: 0 <= i < |y| ==> x[..|y|][i] == y[i];
      FirShift(f, x, y, 2 * k, 0);
    }
  }

  lemma BlockSplit(f: Filter, x: seq<Cs16>, m: nat, n: nat)
    requires HalfbandShape(f) && m % 2 == 0 && n % 2 == 0 && Covers(f, x, m + n) && m <= |x| && Covers(f, x[m..], n)
    ensures Covers(f, x, m) && BlockOut(f, x, m + n) == BlockOut(f, x, m) + BlockOut(f, x[m..], n)
  {
    hide FirAt, HalfbandShape;
    ShapeFacts(f);
    forall k: nat | k < n / 2 ensures FirAt(f, x, m + 2 * k) == FirAt(f, x[m..], 2 * k) {
      FirShift(f, x, x[m..], 2 * k, m);
    }
  }

  lemma ProducedTwice(ctx: nat, a: nat, b: nat)
    requires ctx > 0
    ensures 2 * Produced(ctx, a) <= a
    ensures Produced(ctx, a + b) == Produced(ctx, a) + Produced(ctx, a - 2 * Produced(ctx, a) + b)
  {
  }

  /** Two calls give what one call on the joined input gives, and leave the same history. */
  lemma StageChunks(f: Filter, s: seq<Cs16>, b: seq<Cs16>)
    requires HalfbandShape(f)
    ensures Output(f, s + b) == Output(f, s) + Output(f, Rest(f, s) + b)
    ensures Rest(f, s + b) == Rest(f, Rest(f, s) + b)
  {
    hide HalfbandShape, BlockOut;
    ShapeFacts(f);
    var p := Produced(f.ntaps, |s|);
    ProducedTwice(f.ntaps, |s|, |b|);
    var q := Produced(f.ntaps, |s| - 2 * p + |b|);
    assert (s + b)[2 * p..] == Rest(f, s) + b;
    BlockLocal(f, s + b, s, 2 * p);
    BlockSplit(f, s + b, 2 * p, 2 * q);
  }

  // ---------- the history buffer ----------

  class Decimator {
    const filter: Filter
    // Which of the two kernels the processor at hand runs.
    const neon: bool
    const history: array<Cs16>
    var historyLen: nat

    ghost predicate Valid()
      reads this
    {
      && HalfbandShape(filter)
      && history.Length == 2 * filter.ntaps
      && historyLen <= filter.ntaps
    }

    // C defines the scalar kernel's sums.
    ghost predicate SumsFit() {
      filter.ntaps <= |filter.taps| && AbsSum(filter.taps, filter.ntaps) <= 0xFFFF
    }

    // The kernel computes the full filter on every input.
    ghost predicate Exact()
      requires HalfbandShape(filter)
    {
      neon ==> HalfbandNeonExact.PairsFit(filter)
    }

    function Carried(): seq<Cs16>
      requires historyLen <= history.Length
      reads this, history
    {
      history[..historyLen]
    }

    constructor (f: Filter, neon: bool)
      requires HalfbandShape(f)
      ensures Valid() && filter == f && this.neon == neon && fresh(history)
      ensures Carried() == seq(f.ntaps - 1, _ => Cs16(0, 0))
    {
      filter, this.neon := f, neon;
      history := new Cs16[2 * f.ntaps](_ => Cs16(0, 0));
      historyLen := f.ntaps - 1;
    }

    method Reset()
      requires Valid()
      modifies this, history
      ensures Valid() && Carried() == seq(filter.ntaps - 1, _ => Cs16(0, 0))
    {
      historyLen := filter.ntaps - 1;
      forall k | 0 <= k < historyLen { history[k] := Cs16(0, 0); }
    }

    // The dispatched kernel.
    method Block(x: seq<Cs16>, count: nat, out: array<Cs16>, at: nat) returns (n: nat)
      requires Valid() && SumsFit() && out != history
      requires Covers(filter, x, count) && at + count / 2 <= out.Length
      modifies out
      ensures n == count / 2 && out[..] == Placed(old(out[..]), at, KernelOut(neon, filter, x, count))
    {
      hide HalfbandShape, BlockOut, HalfbandNeon.NeonOut, Placed, AbsSum, Covers;
      if neon {
        n := HalfbandNeon.BlockNeon(filter, x, count, out, at);
      } else {
        n := BlockScalar(filter, x, count, out, at);
      }
    }

    // Tops the history buffer up from the input and returns its contents.
    method Fill(src: array<Cs16>, len: nat) returns (window: seq<Cs16>)
      requires Valid() && len <= src.Length && src != history
      modifies history
      ensures |window| == historyLen + FillLength(filter.ntaps, historyLen, len)
      ensures window == old(Carried()) + src[..len][..|window| - historyLen] && history[..|window|] == window
    {
      hide HalfbandShape;
      var fill := history.Length - historyLen;
      if fill > len { fill := len; }
      forall k | 0 <= k < fill { history[historyLen + k] := src[k]; }
      window := history[..historyLen + fill];
      assert window[..historyLen] == old(Carried());
      assert window[historyLen..] == src[..fill] == src[..len][..fill];
    }

    // Leaves `kept` as the history; the move may overlap.
    method Keep(kept: seq<Cs16>)
      requires Valid() && |kept| <= filter.ntaps
      modifies this`historyLen, history
      ensures Valid() && Carried() == kept
    {
      forall k | 0 <= k < |kept| { history[k] := kept[k]; }
      historyLen := |kept|;
    }

    /** Processes one call's input. What is kept are the unused samples; the outputs are the
        kernel's on two stretches, and with an exact kernel those of the full filter over the
        carried samples and the input. Output and input buffers must differ, because part of
        the input is read after the first outputs are written. */
    method Process(src: array<Cs16>, len: nat, out: array<Cs16>) returns (n: nat)
      requires Valid() && SumsFit() && len <= src.Length && src != out && src != history && out != history
      requires Produced(filter.ntaps, historyLen + len) <= out.Length
      modifies this`historyLen, history, out
      ensures Valid()
      ensures n == Produced(filter.ntaps, old(historyLen) + len)
      ensures out[..] == Placed(old(out[..]), 0, CallBlocks(neon, filter, old(Carried()), src[..len]))
      ensures Exact() ==> out[..] == Placed(old(out[..]), 0, CallOutput(filter, old(Carried()), src[..len]))
      ensures Carried() == CallRest(filter, old(Carried()), src[..len])
    {
      hide HalfbandNeonExact.PairsFit, KernelOut, HalfbandShape, SumsFit, Placed, CallOutput, CallBlocks, CallRest, Covers, Produced, FillLength, MainSamples;
      ghost var c, input, out0 := Carried(), src[..len], out[..];
      if Exact() { CallBlocksExact(neon, filter, c, input); }
      var window := Fill(src, len);
      var samples := 2 * Produced(filter.ntaps, |window|);
      if samples == 0 {
        historyLen := |window|;
        NothingProduced(neon, filter, c, input, window, out0);
        return 0;
      }
      FromHistory(neon, filter, c, input, window, samples);
      n := Block(window, samples, out, 0);
      if samples < historyLen {
        Keep(window[samples..]);
        return n;
      }
      var offset := samples - historyLen;
      AfterHistory(neon, filter, c, input, window, offset, out0);
      n := ProcessMain(src, len, offset, out, n);
    }

    // Processes the input from `offset` on directly, and keeps what is left of it.
    method ProcessMain(src: array<Cs16>, len: nat, offset: nat, out: array<Cs16>, at: nat) returns (n: nat)
      requires Valid() && SumsFit() && len <= src.Length && src != out && src != history && out != history
      requires offset <= len && offset + filter.ntaps <= len + 1
      requires offset + MainSamples(filter.ntaps, len, offset) <= len
      requires at + MainSamples(filter.ntaps, len, offset) / 2 <= out.Length
      requires len - offset - MainSamples(filter.ntaps, len, offset) <= filter.ntaps
      requires Covers(filter, src[..len][offset..], MainSamples(filter.ntaps, len, offset))
      modifies this`historyLen, history, out
      ensures Valid() && n == at + MainSamples(filter.ntaps, len, offset) / 2
      ensures out[..] == Placed(old(out[..]), at,
                                KernelOut(neon, filter, src[..len][offset..], MainSamples(filter.ntaps, len, offset)))
      ensures Carried() == src[..len][offset + MainSamples(filter.ntaps, len, offset)..]
    {
      hide HalfbandShape, SumsFit, Placed, KernelOut;
      var mainSamples := ((len - offset) - filter.ntaps + 1) / 2 * 2;
      n := Block(src[..len][offset..], mainSamples, out, at);
      n := n + at;
      Keep(src[..len][offset + mainSamples..]);
    }
  }

  // What a kernel makes of a block.
  function KernelOut(neon: bool, f: Filter, x: seq<Cs16>, count: nat): (r: seq<Cs16>)
    requires HalfbandShape(f) && Covers(f, x, count)
    ensures |r| == count / 2
  {
    if neon then HalfbandNeon.NeonOut(f, x, count) else BlockOut(f, x, count)
  }

  // One call's outputs: a block over the topped-up history, and one over the rest of the
  // input if the first uses up the carried samples.
  function CallBlocks(neon: bool, f: Filter, c: seq<Cs16>, input: seq<Cs16>): (r: seq<Cs16>)
    requires HalfbandShape(f) && |c| <= f.ntaps
    ensures |r| == Produced(f.ntaps, |c| + |input|)
  {
    var window := c + input[..FillLength(f.ntaps, |c|, |input|)];
    var samples := 2 * Produced(f.ntaps, |window|);
    WindowFacts(f, c, input, window, samples);
    if samples < |c| || samples == 0 then KernelOut(neon, f, window, samples)
    else
      var offset := samples - |c|;
      KernelOut(neon, f, window, samples) +
      KernelOut(neon, f, input[offset..], MainSamples(f.ntaps, |input|, offset))
  }

  // Elements copied into the history buffer of 2 * ctx entries.
  function FillLength(ctx: nat, historyLen: nat, inLength: nat): nat
    requires historyLen <= 2 * ctx
  {
    if 2 * ctx - historyLen > inLength then inLength else 2 * ctx - historyLen
  }

  function MainSamples(ctx: nat, inLength: nat, offset: nat): nat
    requires offset + ctx <= inLength + 1
  {
    ((inLength - offset) - ctx + 1) / 2 * 2
  }

  lemma WindowFacts(f: Filter, c: seq<Cs16>, input: seq<Cs16>, window: seq<Cs16>, samples: nat)
    requires HalfbandShape(f) && |c| <= f.ntaps
    requires window == c + input[..FillLength(f.ntaps, |c|, |input|)] && samples == 2 * Produced(f.ntaps, |window|)
    ensures |window| >= samples && Covers(f, window, samples)
    ensures samples < |c| || samples == 0 ==> window == c + input && samples / 2 == Produced(f.ntaps, |c| + |input|)
    ensures samples == 0 ==> |window| <= f.ntaps
    ensures samples >= |c| && samples > 0 ==>
              var offset := samples - |c|;
              var m := MainSamples(f.ntaps, |input|, offset);
              && offset + f.ntaps <= |input| + 1 && offset + m <= |input| && |input| - offset - m <= f.ntaps
              && Covers(f, input[offset..], m) && samples / 2 + m / 2 == Produced(f.ntaps, |c| + |input|)
  {
    hide HalfbandShape;
    ShapeFacts(f);
    if samples < |c| || samples == 0 {
      assert input[..|input|] == input;
    } else {
      MainArith(f.ntaps, |c|, |input|, samples);
    }
  }

  lemma KernelExact(neon: bool, f: Filter, x: seq<Cs16>, count: nat)
    requires HalfbandShape(f) && Covers(f, x, count) && (neon ==> HalfbandNeonExact.PairsFit(f))
    ensures KernelOut(neon, f, x, count) == BlockOut(f, x, count)
  {
    hide HalfbandShape, Covers, HalfbandNeonExact.PairsFit, BlockOut, HalfbandNeon.NeonOut;
    if neon { HalfbandNeonExact.BlocksAgree(f, x, count); }
  }

  /** With a kernel that computes the full filter, the two blocks are the filter of everything. */
  lemma CallBlocksExact(neon: bool, f: Filter, c: seq<Cs16>, input: seq<Cs16>)
    requires HalfbandShape(f) && |c| <= f.ntaps && (neon ==> HalfbandNeonExact.PairsFit(f))
    ensures CallBlocks(neon, f, c, input) == CallOutput(f, c, input)
  {
    hide HalfbandShape, Covers, HalfbandNeonExact.PairsFit, BlockOut, KernelOut, Produced, MainSamples;
    var window := c + input[..FillLength(f.ntaps, |c|, |input|)];
    var samples := 2 * Produced(f.ntaps, |window|);
    WindowFacts(f, c, input, window, samples);
    KernelExact(neon, f, window, samples);
    if samples >= |c| && samples > 0 {
      var offset := samples - |c|;
      KernelExact(neon, f, input[offset..], MainSamples(f.ntaps, |input|, offset));
      FromInput(f, c, input, window, offset, MainSamples(f.ntaps, |input|, offset));
    }
  }

  // The block taken from the history buffer, and the whole result when the input is used up.
  lemma FromHistory(neon: bool, f: Filter, c: seq<Cs16>, input: seq<Cs16>, window: seq<Cs16>, samples: nat)
    requires HalfbandShape(f) && |c| <= f.ntaps
    requires |window| == |c| + FillLength(f.ntaps, |c|, |input|) && window == c + input[..|window| - |c|]
    requires samples == 2 * Produced(f.ntaps, |window|) > 0
    ensures |window| >= samples && Covers(f, window, samples)
    ensures samples / 2 <= Produced(f.ntaps, |c| + |input|)
    ensures samples < |c| ==>
              CallBlocks(neon, f, c, input) == KernelOut(neon, f, window, samples) &&
              CallRest(f, c, input) == window[samples..] && |window[samples..]| <= f.ntaps &&
              samples / 2 == Produced(f.ntaps, |c| + |input|)
  {
    hide KernelOut, HalfbandShape;
    ShapeFacts(f);
    WindowFacts(f, c, input, window, samples);
  }

  lemma MainArith(ctx: nat, c: nat, n: nat, samples: nat)
    requires ctx % 4 == 3 && c <= ctx && c <= samples
    requires samples == 2 * Produced(ctx, c + FillLength(ctx, c, n)) > 0
    ensures samples - c + ctx <= n + 1 && samples - c <= n
    ensures n - (samples - c) - MainSamples(ctx, n, samples - c) <= ctx
    ensures samples - c + MainSamples(ctx, n, samples - c) <= n
    ensures samples / 2 + MainSamples(ctx, n, samples - c) / 2 == Produced(ctx, c + n)
    ensures MainSamples(ctx, n, samples - c) > 0 ==> MainSamples(ctx, n, samples - c) + ctx - 2 <= n - (samples - c)
    ensures MainSamples(ctx, n, samples - c) % 2 == 0
  {
  }

  // The rest comes straight from the input.
  lemma FromInput(f: Filter, c: seq<Cs16>, input: seq<Cs16>, window: seq<Cs16>, offset: nat, m: nat)
    requires HalfbandShape(f) && offset + m <= |input| && |c| <= |window| <= |c| + |input|
    requires window == c + input[..|window| - |c|]
    requires Covers(f, window, |c| + offset) && Covers(f, input[offset..], m)
    requires (|c| + offset) / 2 + m / 2 == Produced(f.ntaps, |c| + |input|)
    ensures CallRest(f, c, input) == input[offset + m..]
    ensures BlockOut(f, window, |c| + offset) + BlockOut(f, input[offset..], m) == CallOutput(f, c, input)
  {
    hide BlockOut, HalfbandShape, Produced;
    ShapeFacts(f);
    var s := c + input;
    assert s[..|window|] == window;
    BlockLocal(f, s, window, |c| + offset);
    assert s[|c| + offset..] == input[offset..];
    BlockSplit(f, s, |c| + offset, m);
  }

  lemma TwoBlocks(neon: bool, f: Filter, c: seq<Cs16>, input: seq<Cs16>, window: seq<Cs16>, offset: nat)
    requires HalfbandShape(f) && |c| <= f.ntaps && window == c + input[..FillLength(f.ntaps, |c|, |input|)]
    requires |c| + offset == 2 * Produced(f.ntaps, |window|) > 0 && Covers(f, window, |c| + offset)
    requires offset + f.ntaps <= |input| + 1 && offset <= |input|
    requires Covers(f, input[offset..], MainSamples(f.ntaps, |input|, offset))
    ensures CallBlocks(neon, f, c, input)
            == KernelOut(neon, f, window, |c| + offset) +
               KernelOut(neon, f, input[offset..], MainSamples(f.ntaps, |input|, offset))
  {
    hide KernelOut, HalfbandShape, Produced, MainSamples, FillLength, Covers;
  }

  lemma MainFacts(f: Filter, c: seq<Cs16>, input: seq<Cs16>, window: seq<Cs16>, offset: nat)
    requires HalfbandShape(f) && |c| <= f.ntaps
    requires |window| == |c| + FillLength(f.ntaps, |c|, |input|) && window == c + input[..|window| - |c|]
    requires |c| + offset == 2 * Produced(f.ntaps, |window|) > 0
    ensures offset <= |input| && offset + f.ntaps <= |input| + 1
    ensures offset + MainSamples(f.ntaps, |input|, offset) <= |input|
    ensures |input| - offset - MainSamples(f.ntaps, |input|, offset) <= f.ntaps
    ensures Covers(f, input[offset..], MainSamples(f.ntaps, |input|, offset))
    ensures (|c| + offset) / 2 + MainSamples(f.ntaps, |input|, offset) / 2 == Produced(f.ntaps, |c| + |input|)
    ensures |c| <= |window| <= |c| + |input|
  {
    hide HalfbandShape, Produced, MainSamples, Covers;
    ShapeFacts(f);
    WindowFacts(f, c, input, window, |c| + offset);
  }

  lemma AfterHistory(neon: bool, f: Filter, c: seq<Cs16>, input: seq<Cs16>, window: seq<Cs16>, offset: nat, out: seq<Cs16>)
    requires HalfbandShape(f) && |c| <= f.ntaps && Produced(f.ntaps, |c| + |input|) <= |out|
    requires |window| == |c| + FillLength(f.ntaps, |c|, |input|) && window == c + input[..|window| - |c|]
    requires |c| + offset == 2 * Produced(f.ntaps, |window|) > 0 && Covers(f, window, |c| + offset)
    ensures offset <= |input| && offset + f.ntaps <= |input| + 1
    ensures offset + MainSamples(f.ntaps, |input|, offset) <= |input|
    ensures |input| - offset - MainSamples(f.ntaps, |input|, offset) <= f.ntaps
    ensures Covers(f, input[offset..], MainSamples(f.ntaps, |input|, offset))
    ensures (|c| + offset) / 2 + MainSamples(f.ntaps, |input|, offset) / 2 == Produced(f.ntaps, |c| + |input|)
    ensures CallRest(f, c, input) == input[offset + MainSamples(f.ntaps, |input|, offset)..]
    ensures Placed(Placed(out, 0, KernelOut(neon, f, window, |c| + offset)), (|c| + offset) / 2,
                   KernelOut(neon, f, input[offset..], MainSamples(f.ntaps, |input|, offset)))
            == Placed(out, 0, CallBlocks(neon, f, c, input))
  {
    hide KernelOut, HalfbandShape, Placed, CallOutput, CallRest, CallBlocks, Produced, MainSamples, FillLength, Covers;
    MainFacts(f, c, input, window, offset);
    TwoBlocks(neon, f, c, input, window, offset);
    FromInput(f, c, input, window, offset, MainSamples(f.ntaps, |input|, offset));
    PlacedTwice(out, KernelOut(neon, f, window, |c| + offset),
                KernelOut(neon, f, input[offset..], MainSamples(f.ntaps, |input|, offset)));
  }

  // Too few samples for any output: everything is kept.
  lemma NothingProduced(neon: bool, f: Filter, c: seq<Cs16>, input: seq<Cs16>, window: seq<Cs16>, out: seq<Cs16>)
    requires HalfbandShape(f) && |c| <= f.ntaps && Produced(f.ntaps, |window|) == 0
    requires |window| == |c| + FillLength(f.ntaps, |c|, |input|) && window == c + input[..|window| - |c|]
    ensures |window| <= f.ntaps && Produced(f.ntaps, |c| + |input|) == 0
    ensures CallBlocks(neon, f, c, input) == [] && CallRest(f, c, input) == window && Placed(out, 0, []) == out
  {
    hide KernelOut, HalfbandShape;
    ShapeFacts(f);
    WindowFacts(f, c, input, window, 0);
  }

  lemma PlacedTwice(out: seq<Cs16>, first: seq<Cs16>, second: seq<Cs16>)
    requires |first| + |second| <= |out|
    ensures Placed(Placed(out, 0, first), |first|, second) == Placed(out, 0, first + second)
  {
  }

  /** After a reset, the response to a single sample is the taps, every second one: output k
      sees the sample at input p through the tap that is p - 2k from the last. */
  lemma ResetImpulse(f: Filter, x: seq<Cs16>, p: nat, v: int16, k: nat, quad: bool)
    requires HalfbandShape(f) && AbsSum(f.taps, f.ntaps) <= 32767 && HalfbandRange.Impulse(x, p, v)
    requires k < |CallOutput(f, seq(f.ntaps - 1, _ => Cs16(0, 0)), x)|
    ensures Part(CallOutput(f, seq(f.ntaps - 1, _ => Cs16(0, 0)), x)[k], quad)
            == (if 0 <= p - 2 * k + f.ntaps - 1 < f.ntaps then f.taps[p - 2 * k + f.ntaps - 1] * v else 0) / 32768
  {
    hide AbsSum, HalfbandShape, BlockOut;
    ShapeFacts(f);
    var zeros := seq(f.ntaps - 1, _ => Cs16(0, 0));
    var s := zeros + x;
    assert HalfbandRange.Impulse(s, p + f.ntaps - 1, v);
    HalfbandRange.ImpulseResponse(f, s, p + f.ntaps - 1, v, 2 * Produced(f.ntaps, |s|), k, quad);
  }
}
