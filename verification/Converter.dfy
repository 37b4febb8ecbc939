/** The chain of decimators as the streaming thread runs it, alternating between two
    work buffers. */
module Converter {
  import opened Fixed16
  import opened Halfband
  import opened DspHistory
  import opened Cascade

  // A stage whose kernel computes the full filter.
  ghost predicate Ready(d: Decimator)
    reads d
  {
    d.Valid() && d.SumsFit() && d.Exact()
  }

  class Chain {
    const stages: seq<Decimator>
    const work0: array<Cs16>
    const work1: array<Cs16>
    ghost const Repr: set<object>

    // Stages and buffers are pairwise distinct objects.
    ghost predicate Separate() {
      && |stages| > 0
      && work0 != work1
      && work0 in Repr && work1 in Repr
      && (forall k :: 0 <= k < |stages| ==>
            stages[k] in Repr && stages[k].history in Repr && stages[k].history != work0 && stages[k].history != work1)
      && (forall j, k :: 0 <= j < k < |stages| ==>
            stages[j] != stages[k] && stages[j].history != stages[k].history)
    }

    ghost predicate Valid()
      reads Repr
    {
      Separate() && forall k :: 0 <= k < |stages| ==> Ready(stages[k])
    }

    ghost function Filters(): (r: seq<Filter>)
      ensures |r| == |stages|
    {
      seq(|stages|, k requires 0 <= k < |stages| => stages[k].filter)
    }

    ghost function Carries(): (r: seq<seq<Cs16>>)
      requires Valid()
      reads Repr
      ensures |r| == |stages|
    {
      seq(|stages|, k requires 0 <= k < |stages| && Valid() reads Repr => stages[k].Carried())
    }

    constructor (stages: seq<Decimator>, size: nat)
      requires |stages| > 0 && forall k :: 0 <= k < |stages| ==> Ready(stages[k])
      requires forall j, k :: 0 <= j < k < |stages| ==>
                 stages[j] != stages[k] && stages[j].history != stages[k].history
      ensures Valid() && this.stages == stages && work0.Length == work1.Length == size
      ensures fresh(work0) && fresh(work1)
      ensures Repr == (set k | 0 <= k < |stages| :: stages[k]) + (set k | 0 <= k < |stages| :: stages[k].history) + {work0, work1}
    {
      this.stages := stages;
      var a, b := new Cs16[size](_ => Cs16(0, 0)), new Cs16[size](_ => Cs16(0, 0));
      work0, work1 := a, b;
      Repr := (set k | 0 <= k < |stages| :: stages[k]) + (set k | 0 <= k < |stages| :: stages[k].history) + {a, b};
    }

    // Buffers that hold a stage's input or output: none is a stage's history.
    ghost predicate IsData(buffer: array<Cs16>) {
      buffer !in Repr || buffer == work0 || buffer == work1
    }

    // Runs stage k from one buffer to another, leaving every other stage alone.
    method RunStage(k: nat, src: array<Cs16>, len: nat, dst: array<Cs16>) returns (n: nat)
      requires Valid() && k < |stages| && len <= src.Length && src != dst && IsData(src) && IsData(dst)
      requires Produced(stages[k].filter.ntaps, |stages[k].Carried()| + len) <= dst.Length
      modifies stages[k], stages[k].history, dst
      ensures Valid() && n == |CallOutput(stages[k].filter, old(Carries()[k]), src[..len])| <= dst.Length
      ensures dst[..n] == CallOutput(stages[k].filter, old(Carries()[k]), src[..len])
      ensures Carries() == old(Carries())[k := CallRest(stages[k].filter, old(Carries()[k]), src[..len])]
    {
      hide CallOutput, CallBlocks, CallRest, HalfbandShape, AbsSum;
      n := stages[k].Process(src, len, dst);
      FrontOfPlaced(old(dst[..]), CallOutput(stages[k].filter, old(stages[k].Carried()), src[..len]));
    }

    // One step of the chain: after stage k the data is in `dst`.
    method NextStage(k: nat, src: array<Cs16>, len: nat, dst: array<Cs16>, ghost cs: seq<seq<Cs16>>, ghost input: seq<Cs16>)
      returns (n: nat)
      requires Valid() && k < |stages| && len <= src.Length && src != dst && IsData(src) && IsData(dst)
      requires Reached(Filters(), cs, input, k, src[..len], Carries())
      requires (len + 1) / 2 <= dst.Length || (k + 1 == |stages| && |Cascaded(Filters(), cs, input).out| <= dst.Length)
      modifies stages[k], stages[k].history, dst
      ensures Valid() && n <= (len + 1) / 2 && n <= dst.Length
      ensures Reached(Filters(), cs, input, k + 1, dst[..n], Carries())
    {
      hide CallOutput, CallRest, HalfbandShape, AbsSum, Cascaded, Reached, Produced, Shaped;
      ghost var fs, now, data := Filters(), Carries(), src[..len];
      ChainStep(fs, cs, input, k, data, now);
      if k + 1 == |stages| {
        ChainEnd(fs, cs, input, CallOutput(fs[k], now[k], data), now[k := CallRest(fs[k], now[k], data)]);
      }
      n := RunStage(k, src, len, dst);
    }

    lemma BuffersAreData()
      requires Separate()
      ensures |stages| > 0 && work0 != work1 && IsData(work0) && IsData(work1)
    {
    }

    /** One call of the whole chain: the data goes through every stage, from one work
        buffer to the other, and the last stage writes to `out`. No stage reads the buffer
        it writes, and work buffers of half the input's length hold every stage's output. */
    method Convert(input: array<Cs16>, len: nat, out: array<Cs16>) returns (count: nat)
      requires Valid() && input !in Repr && out !in Repr && input != out && Shaped(Filters())
      requires len % 2 == 0 && len <= input.Length && len <= 2 * work0.Length && work0.Length == work1.Length
      requires |Cascaded(Filters(), Carries(), input[..len]).out| <= out.Length
      modifies Repr, out
      ensures Valid() && count == |Cascaded(Filters(), old(Carries()), input[..len]).out| <= out.Length
      ensures out[..count] == Cascaded(Filters(), old(Carries()), input[..len]).out
      ensures Carries() == Cascaded(Filters(), old(Carries()), input[..len]).carries
    {
      hide Cascaded, Reached, Shaped, Filters, Carries;
      ghost var cs := Carries();
      BuffersAreData();
      var post := |stages| - 1;
      var src := input;
      var workOut := 1;
      count := len;
      StartChain(Filters(), cs, input[..len]);
      for k := 0 to post
        invariant Valid() && count <= src.Length && if k == 0 then count == len else count <= work0.Length
        invariant Reached(Filters(), cs, input[..len], k, src[..count], Carries())
        invariant workOut == 0 || workOut == 1
        invariant src == if k == 0 then input else if workOut == 1 then work0 else work1
      {
        var dst := if workOut == 1 then work1 else work0;
        count := NextStage(k, src, count, dst, cs, input[..len]);
        src := dst;
        workOut := 1 - workOut;
      }
      count := NextStage(post, src, count, out, cs, input[..len]);
      ChainEnd(Filters(), cs, input[..len], out[..count], Carries());
    }
  }

  lemma FrontOfPlaced(out: seq<Cs16>, block: seq<Cs16>)
    requires |block| <= |out|
    ensures Placed(out, 0, block)[..|block|] == block
  {
  }

  // After k stages: the data so far, and the first k histories renewed.
  ghost predicate Reached(fs: seq<Filter>, cs: seq<seq<Cs16>>, input: seq<Cs16>, k: nat, data: seq<Cs16>, now: seq<seq<Cs16>>) {
    && k <= |fs| == |cs| && Shaped(fs)
    && data == Cascaded(fs[..k], cs[..k], input).out
    && now == Cascaded(fs[..k], cs[..k], input).carries + cs[k..]
  }

  lemma StartChain(fs: seq<Filter>, cs: seq<seq<Cs16>>, input: seq<Cs16>)
    requires |cs| == |fs| && Shaped(fs)
    ensures Reached(fs, cs, input, 0, input, cs)
  {
  }

  lemma ChainStep(fs: seq<Filter>, cs: seq<seq<Cs16>>, input: seq<Cs16>, k: nat, data: seq<Cs16>, now: seq<seq<Cs16>>)
    requires k < |fs| && Reached(fs, cs, input, k, data, now)
    ensures HalfbandShape(fs[k]) && |now| == |fs| && now[k] == cs[k]
    ensures Reached(fs, cs, input, k + 1, CallOutput(fs[k], now[k], data), now[k := CallRest(fs[k], now[k], data)])
    ensures |now[k]| <= fs[k].ntaps ==> |CallOutput(fs[k], now[k], data)| <= (|data| + 1) / 2
  {
    hide CallOutput, CallRest, HalfbandShape;
    assert fs[..k + 1][..k] == fs[..k] && cs[..k + 1][..k] == cs[..k];
    var run := Cascaded(fs[..k], cs[..k], input);
    assert now[k := CallRest(fs[k], cs[k], data)] == (run.carries + [CallRest(fs[k], cs[k], data)]) + cs[k + 1..];
    HalfOfIt(fs[k].ntaps, |now[k]|, |data|);
  }

  lemma HalfOfIt(ctx: nat, c: nat, n: nat)
    ensures c <= ctx ==> Produced(ctx, c + n) <= (n + 1) / 2
  {
  }

  lemma ChainEnd(fs: seq<Filter>, cs: seq<seq<Cs16>>, input: seq<Cs16>, data: seq<Cs16>, now: seq<seq<Cs16>>)
    requires Reached(fs, cs, input, |fs|, data, now)
    ensures data == Cascaded(fs, cs, input).out && now == Cascaded(fs, cs, input).carries
  {
    assert fs[..|fs|] == fs && cs[..|fs|] == cs;
  }
}
