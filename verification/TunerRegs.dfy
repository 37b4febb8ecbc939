/** Tuner register batching: field writes are collected in a change set and sent as one
    payload of values and masks. */
module TunerRegs {
  import opened TunerPll

  // A write of some bits of one register; the value is already shifted into place.
  datatype FieldWrite = FieldWrite(reg: nat, mask: bv8, value: bv8)

  datatype Entry = Entry(value: bv8, mask: bv8)

  const NO_CHANGE := Entry(0, 0)

  predicate Writable(w: FieldWrite) { 5 <= w.reg < 32 }

  // ---------- registers ----------

  function Merge(current: bv8, mask: bv8, value: bv8): bv8 { (current & !mask) | (value & mask) }

  function WriteField(regs: seq<bv8>, w: FieldWrite): (r: seq<bv8>)
    requires |regs| == 32 && w.reg < 32
    ensures |r| == 32
  {
    regs[w.reg := Merge(regs[w.reg], w.mask, w.value)]
  }

  predicate AllWritable(ws: seq<FieldWrite>) { forall k :: 0 <= k < |ws| ==> Writable(ws[k]) }

  // The writes done one by one.
  function OneByOne(regs: seq<bv8>, ws: seq<FieldWrite>): (r: seq<bv8>)
    requires |regs| == 32 && AllWritable(ws)
    ensures |r| == 32
    decreases |ws|
  {
    if ws == [] then regs else WriteField(OneByOne(regs, ws[..|ws| - 1]), ws[|ws| - 1])
  }

  // ---------- the change set ----------

  function Recorded(e: Entry, w: FieldWrite): Entry {
    Entry((e.value & !w.mask) | (w.value & w.mask), e.mask | w.mask)
  }

  function Collect(es: seq<Entry>, ws: seq<FieldWrite>): (r: seq<Entry>)
    requires |es| == 32 && AllWritable(ws)
    ensures |r| == 32
    decreases |ws|
  {
    if ws == [] then es
    else
      var before := Collect(es, ws[..|ws| - 1]);
      var w := ws[|ws| - 1];
      before[w.reg := Recorded(before[w.reg], w)]
  }

  function Empty(): (r: seq<Entry>)
    ensures |r| == 32
  {
    seq(32, _ => NO_CHANGE)
  }

  // What a change set does to the registers.
  function Effect(regs: seq<bv8>, es: seq<Entry>): (r: seq<bv8>)
    requires |regs| == |es| == 32
    ensures |r| == 32
  {
    seq(32, k requires 0 <= k < 32 => Merge(regs[k], es[k].mask, es[k].value))
  }

  lemma MergeTwice(r: bv8, e: Entry, w: FieldWrite)
    ensures Merge(r, Recorded(e, w).mask, Recorded(e, w).value) == Merge(Merge(r, e.mask, e.value), w.mask, w.value)
  {
  }

  lemma MergeNothing(r: bv8, v: bv8)
    ensures Merge(r, 0, v) == r
  {
  }

  // Recording one more write adds that write to the effect.
  lemma RecordedEffect(regs: seq<bv8>, es: seq<Entry>, w: FieldWrite)
    requires |regs| == |es| == 32 && w.reg < 32
    ensures Effect(regs, es[w.reg := Recorded(es[w.reg], w)]) == WriteField(Effect(regs, es), w)
  {
    MergeTwice(regs[w.reg], es[w.reg], w);
    hide Merge, Recorded;
    var l, r := Effect(regs, es[w.reg := Recorded(es[w.reg], w)]), WriteField(Effect(regs, es), w);
    forall k | 0 <= k < 32 ensures l[k] == r[k] {
    }
  }

  lemma {:induction false} CollectEffect(regs: seq<bv8>, ws: seq<FieldWrite>)
    requires |regs| == 32 && AllWritable(ws)
    ensures Effect(regs, Collect(Empty(), ws)) == OneByOne(regs, ws)
    decreases |ws|
  {
    hide Merge, Recorded;
    if ws == [] {
      forall k | 0 <= k < 32 ensures Effect(regs, Empty())[k] == regs[k] { MergeNothing(regs[k], 0); }
    } else {
      var before := Collect(Empty(), ws[..|ws| - 1]);
      var w := ws[|ws| - 1];
      CollectEffect(regs, ws[..|ws| - 1]);
      MergeTwice(regs[w.reg], before[w.reg], w);
      assert Effect(regs, before)[w.reg] == OneByOne(regs, ws[..|ws| - 1])[w.reg];
      var l, r := Effect(regs, Collect(Empty(), ws)), OneByOne(regs, ws);
      forall k | 0 <= k < 32 ensures l[k] == r[k] {
        assert Effect(regs, before)[k] == OneByOne(regs, ws[..|ws| - 1])[k];
      }
    }
  }

  lemma {:induction false} LowRegistersUntouched(ws: seq<FieldWrite>, k: nat)
    requires AllWritable(ws) && k < 5
    ensures Collect(Empty(), ws)[k] == NO_CHANGE
    decreases |ws|
  {
    if ws != [] { LowRegistersUntouched(ws[..|ws| - 1], k); }
  }

  // ---------- the payload ----------

  // count values followed by count masks, for consecutive registers starting at `first`.
  datatype Payload = Payload(first: nat, bytes: seq<bv8>)

  predicate Sendable(p: Payload) { |p.bytes| % 2 == 0 && p.first + |p.bytes| / 2 <= 32 }

  // How the device applies a payload.
  function ApplyPayload(regs: seq<bv8>, p: Payload): (r: seq<bv8>)
    requires |regs| == 32 && Sendable(p)
    ensures |r| == 32
  {
    var count := |p.bytes| / 2;
    seq(32, k requires 0 <= k < 32 =>
      if p.first <= k < p.first + count then Merge(regs[k], p.bytes[k - p.first + count], p.bytes[k - p.first])
      else regs[k])
  }

  function Values(es: seq<Entry>, first: nat, count: nat): (r: seq<bv8>)
    requires first + count <= |es|
    ensures |r| == count
  {
    seq(count, k requires 0 <= k < count => es[first + k].value)
  }

  function Masks(es: seq<Entry>, first: nat, count: nat): (r: seq<bv8>)
    requires first + count <= |es|
    ensures |r| == count
  {
    seq(count, k requires 0 <= k < count => es[first + k].mask)
  }

  // The payload covers exactly the span of changed registers.
  ghost predicate Encodes(p: Payload, es: seq<Entry>)
    requires |es| == 32
  {
    && Sendable(p)
    && (forall k :: 5 <= k < 32 && !(p.first <= k < p.first + |p.bytes| / 2) ==> es[k].mask == 0)
    && p.bytes == Values(es, p.first, |p.bytes| / 2) + Masks(es, p.first, |p.bytes| / 2)
    && (p.bytes != [] ==> p.first >= 5 && es[p.first].mask != 0 && es[p.first + |p.bytes| / 2 - 1].mask != 0)
  }

  lemma EncodedAt(es: seq<Entry>, p: Payload, k: nat)
    requires |es| == 32 && Encodes(p, es) && k < 32 && (k < 5 ==> es[k].mask == 0)
    ensures p.first <= k < p.first + |p.bytes| / 2 ==>
              p.bytes[k - p.first + |p.bytes| / 2] == es[k].mask && p.bytes[k - p.first] == es[k].value
    ensures !(p.first <= k < p.first + |p.bytes| / 2) ==> es[k].mask == 0
  {
    var count := |p.bytes| / 2;
    if p.first <= k < p.first + count {
      var j := k - p.first;
      assert p.bytes[j] == Values(es, p.first, count)[j] && p.bytes[j + count] == Masks(es, p.first, count)[j];
    }
  }

  lemma EncodedEffect(regs: seq<bv8>, es: seq<Entry>, p: Payload)
    requires |regs| == |es| == 32 && Encodes(p, es) && forall k :: 0 <= k < 5 ==> es[k].mask == 0
    ensures ApplyPayload(regs, p) == Effect(regs, es)
  {
    hide Merge, Values, Masks;
    var l, r := ApplyPayload(regs, p), Effect(regs, es);
    hide Encodes;
    forall k | 0 <= k < 32 ensures l[k] == r[k] {
      EncodedAt(es, p, k);
      MergeNothing(regs[k], es[k].value);
    }
  }

  /** Batching is invisible: for any list of field writes, sending the payload of the
      collected change set does what the writes do one by one. */
  lemma BatchedEqualsSequential(regs: seq<bv8>, ws: seq<FieldWrite>, p: Payload)
    requires |regs| == 32 && AllWritable(ws) && Encodes(p, Collect(Empty(), ws))
    ensures ApplyPayload(regs, p) == OneByOne(regs, ws)
  {
    hide Encodes, Effect, ApplyPayload, OneByOne, Collect;
    CollectEffect(regs, ws);
    forall k | 0 <= k < 5 ensures Collect(Empty(), ws)[k].mask == 0 { LowRegistersUntouched(ws, k); }
    EncodedEffect(regs, Collect(Empty(), ws), p);
  }

  predicate Disjoint(mask: bv8, bits: bv8) { mask & bits == 0 }

  predicate SameBits(a: bv8, b: bv8, bits: bv8) { a & bits == b & bits }

  /** Bits outside every mask written to a register keep their value. */
  lemma {:induction false} OtherBitsKept(regs: seq<bv8>, ws: seq<FieldWrite>, r: nat, bits: bv8)
    requires |regs| == 32 && AllWritable(ws) && r < 32
    requires forall k :: 0 <= k < |ws| && ws[k].reg == r ==> Disjoint(ws[k].mask, bits)
    ensures SameBits(OneByOne(regs, ws)[r], regs[r], bits)
    decreases |ws|
  {
    hide Merge, Disjoint, SameBits;
    if ws == [] {
      SameAsItself(regs[r], bits);
    } else {
      var n := |ws| - 1;
      OtherBitsKept(regs, ws[..n], r, bits);
      if ws[n].reg == r { MergeKeeps(OneByOne(regs, ws[..n])[r], regs[r], ws[n].mask, ws[n].value, bits); }
    }
  }

  lemma SameAsItself(a: bv8, bits: bv8)
    ensures SameBits(a, a, bits)
  {
  }

  lemma MergeKeeps(r: bv8, original: bv8, mask: bv8, value: bv8, bits: bv8)
    requires Disjoint(mask, bits) && SameBits(r, original, bits)
    ensures SameBits(Merge(r, mask, value), original, bits)
  {
  }

  // ---------- the change set as the driver keeps it ----------

  class ChangeSet {
    const entries: array<Entry>

    predicate Valid()
    {
      entries.Length == 32
    }

    // The byte buffer is not the entry array itself.
    ghost predicate Apart(out: array<bv8>) { entries as object != out as object }

    constructor ()
      ensures Valid() && fresh(entries) && entries[..] == Empty()
    {
      entries := new Entry[32](_ => NO_CHANGE);
    }

    method SetBits(w: FieldWrite)
      requires Valid() && Writable(w)
      modifies entries
      ensures entries[..] == old(entries[..])[w.reg := Recorded(old(entries[..])[w.reg], w)]
      ensures forall regs: seq<bv8> | |regs| == 32 ::
                Effect(regs, entries[..]) == WriteField(Effect(regs, old(entries[..])), w)
    {
      ghost var es := entries[..];
      forall regs: seq<bv8> | |regs| == 32
        ensures Effect(regs, es[w.reg := Recorded(es[w.reg], w)]) == WriteField(Effect(regs, es), w)
      {
        RecordedEffect(regs, es, w);
      }
      var e := entries[w.reg];
      entries[w.reg] := Entry((e.value & !w.mask) | (w.value & w.mask), e.mask | w.mask);
    }

    // Records all the writes.
    method SetAll(ws: seq<FieldWrite>)
      requires Valid() && AllWritable(ws) && entries[..] == Empty()
      modifies entries
      ensures entries[..] == Collect(Empty(), ws)
    {
      hide Recorded;
      for k := 0 to |ws|
        invariant entries[..] == Collect(Empty(), ws[..k])
      {
        assert ws[..k + 1][..k] == ws[..k];
        SetBits(ws[k]);
      }
      assert ws[..|ws|] == ws;
    }

    // The lowest and highest changed registers.
    method Span() returns (found: nat, firstEntry: nat, lastEntry: nat)
      requires Valid()
      ensures found == 0 <==> forall k :: 5 <= k < 32 ==> entries[k].mask == 0
      ensures found > 0 ==> 5 <= firstEntry <= lastEntry < 32
      ensures found > 0 ==> entries[firstEntry].mask != 0 && entries[lastEntry].mask != 0
      ensures found > 0 ==> forall k :: 5 <= k < 32 && (k < firstEntry || k > lastEntry) ==> entries[k].mask == 0
    {
      found, firstEntry, lastEntry := 0, 32, 5;
      for i := 5 to 32
        invariant found == 0 ==> firstEntry == 32 && lastEntry == 5
        invariant forall k :: 5 <= k < i && (k < firstEntry || k > lastEntry) ==> entries[k].mask == 0
        invariant found > 0 ==> 5 <= firstEntry <= lastEntry < i
        invariant found > 0 ==> entries[firstEntry].mask != 0 && entries[lastEntry].mask != 0
      {
        if entries[i].mask != 0 {
          found := found + 1;
          if firstEntry > i { firstEntry := i; }
          if lastEntry < i { lastEntry := i; }
        }
      }
    }

    // Reads and clears the values and masks of `count` registers.
    method Emit(out: array<bv8>, firstEntry: nat, count: nat)
      requires Valid() && Apart(out) && firstEntry + count <= 32 && 2 * count <= out.Length
      modifies entries, out
      ensures out[..count] == Values(old(entries[..]), firstEntry, count)
      ensures out[count..2 * count] == Masks(old(entries[..]), firstEntry, count)
      ensures entries[..] == Cleared(old(entries[..]), firstEntry, count)
    {
      hide Values, Masks, Cleared;
      ghost var es := entries[..];
      EmitStart(es, firstEntry);
      for offset := 0 to count
        invariant out[..offset] == Values(es, firstEntry, offset)
        invariant out[count..count + offset] == Masks(es, firstEntry, offset)
        invariant entries[..] == Cleared(es, firstEntry, offset)
      {
        var i := firstEntry + offset;
        EmitStep(es, firstEntry, offset);
        assert entries[i] == entries[..][i] == es[i];
        ghost var values, masks := out[..offset], out[count..count + offset];
        out[offset] := entries[i].value;
        out[offset + count] := entries[i].mask;
        assert out[..offset + 1] == values + [es[i].value];
        assert out[count..count + offset + 1] == masks + [es[i].mask];
        entries[i] := NO_CHANGE;
      }
    }

    // The same as values.
    method ChangedSpan() returns (found: nat, first: nat, count: nat)
      requires Valid()
      ensures found == 0 <==> Clean(entries[..])
      ensures found > 0 ==> 5 <= first && 0 < count && first + count <= 32 && SpanOf(entries[..], first, count)
    {
      var lastEntry;
      found, first, lastEntry := Span();
      assert forall k :: 0 <= k < 32 ==> entries[..][k] == entries[k];
      count := if found > 0 then lastEntry - first + 1 else 0;
    }

    /** Builds the payload and clears what it sends. `out` holds the bytes; the size is
        zero if nothing changed. */
    method PreparePayload(out: array<bv8>) returns (first: nat, size: nat)
      requires Valid() && Apart(out) && out.Length >= 54
      modifies entries, out
      ensures size <= 54 && Encodes(Payload(first, out[..size]), old(entries[..]))
      ensures size % 2 == 0 && ValuesThenMasks(out[..size], old(entries[..]), first, size / 2)
      ensures entries[..] == if size == 0 then old(entries[..]) else Cleared(old(entries[..]), first, size / 2)
      ensures Clean(entries[..]) && (size == 0 <==> Clean(old(entries[..])))
    {
      hide Encodes, ValuesThenMasks, Cleared, Values, Masks, Clean, SpanOf;
      ghost var es := entries[..];
      var found, firstEntry, count := ChangedSpan();
      if found == 0 {
        EmptyEncodes(es);
        assert out[..0] == [];
        return 0, 0;
      }
      Emit(out, firstEntry, count);
      first, size := firstEntry, count * 2;
      assert out[..size][..count] == out[..count] && out[..size][count..] == out[count..2 * count];
      SpanEncodes(first, out[..size], es, count);
    }
  }

  lemma EmitStart(es: seq<Entry>, first: nat)
    requires first <= |es|
    ensures Values(es, first, 0) == [] && Masks(es, first, 0) == [] && Cleared(es, first, 0) == es
  {
  }

  lemma EmitStep(es: seq<Entry>, first: nat, n: nat)
    requires first + n < |es|
    ensures Values(es, first, n + 1) == Values(es, first, n) + [es[first + n].value]
    ensures Masks(es, first, n + 1) == Masks(es, first, n) + [es[first + n].mask]
    ensures Cleared(es, first, n + 1) == Cleared(es, first, n)[first + n := NO_CHANGE]
    ensures Cleared(es, first, n)[first + n] == es[first + n]
  {
  }

  function Cleared(es: seq<Entry>, first: nat, count: nat): (r: seq<Entry>)
    requires first + count <= |es|
    ensures |r| == |es|
  {
    seq(|es|, k requires 0 <= k < |es| => if first <= k < first + count then NO_CHANGE else es[k])
  }

  // The registers from `first` on: all their values, then all their masks.
  ghost predicate ValuesThenMasks(bytes: seq<bv8>, es: seq<Entry>, first: nat, count: nat) {
    && first + count <= |es| && |bytes| == 2 * count
    && forall k :: first <= k < first + count ==> bytes[k - first] == es[k].value && bytes[count + k - first] == es[k].mask
  }

  lemma PayloadBytes(first: nat, bytes: seq<bv8>, es: seq<Entry>, count: nat)
    requires first + count <= |es| && |bytes| == 2 * count
    requires bytes[..count] == Values(es, first, count) && bytes[count..] == Masks(es, first, count)
    ensures ValuesThenMasks(bytes, es, first, count)
  {
    assert bytes == bytes[..count] + bytes[count..];
  }

  // No register the driver writes is marked as changed.
  ghost predicate Clean(es: seq<Entry>) {
    |es| == 32 && forall k :: 5 <= k < 32 ==> es[k].mask == 0
  }

  // The changed registers are in the span, and both its ends have changed.
  ghost predicate SpanOf(es: seq<Entry>, first: nat, count: nat) {
    && |es| == 32 && 0 < count && first + count <= 32
    && es[first].mask != 0 && es[first + count - 1].mask != 0
    && forall k :: 5 <= k < 32 && (k < first || k > first + count - 1) ==> es[k].mask == 0
  }

  lemma EmptyEncodes(es: seq<Entry>)
    requires Clean(es)
    ensures Encodes(Payload(0, []), es) && ValuesThenMasks([], es, 0, 0)
  {
    assert Values(es, 0, 0) + Masks(es, 0, 0) == [];
  }

  lemma NothingLeft(first: nat, es: seq<Entry>, count: nat)
    requires SpanOf(es, first, count)
    ensures Clean(Cleared(es, first, count)) && (first >= 5 ==> !Clean(es))
  {
  }

  lemma PayloadEncodes(first: nat, bytes: seq<bv8>, es: seq<Entry>, count: nat)
    requires SpanOf(es, first, count) && 5 <= first && |bytes| == 2 * count
    requires bytes[..count] == Values(es, first, count) && bytes[count..] == Masks(es, first, count)
    ensures Encodes(Payload(first, bytes), es)
  {
    hide Values, Masks;
    assert bytes == bytes[..count] + bytes[count..];
  }

  lemma SpanEncodes(first: nat, bytes: seq<bv8>, es: seq<Entry>, count: nat)
    requires SpanOf(es, first, count) && 5 <= first && first + count <= |es| && |bytes| == 2 * count
    requires bytes[..count] == Values(es, first, count) && bytes[count..] == Masks(es, first, count)
    ensures Encodes(Payload(first, bytes), es) && ValuesThenMasks(bytes, es, first, count)
    ensures Clean(Cleared(es, first, count)) && !Clean(es)
  {
    hide SpanOf, Encodes, ValuesThenMasks, Values, Masks, Clean, Cleared;
    PayloadEncodes(first, bytes, es, count);
    PayloadBytes(first, bytes, es, count);
    NothingLeft(first, es, count);
  }

  // ---------- programming the synthesiser ----------

  // Position of a divider in the driver's lookup table.
  function DividerIndex(seldiv: nat): nat
    requires IsDivider(seldiv)
  {
    if seldiv == 2 then 0 else if seldiv == 4 then 1 else if seldiv == 8 then 2
    else if seldiv == 16 then 3 else if seldiv == 32 then 4 else 5
  }

  predicate Programmable(c: PllConfig) {
    IsDivider(c.seldiv) && 13 <= c.feedbackN <= 269 && c.feedbackSdm < 65536
  }

  function Flag(on: bool, b: bv8): bv8 { if on then b else 0 }

  function Odd(x: nat, weight: nat): bool
    requires weight > 0
  {
    x / weight % 2 == 1
  }

  // The byte with the binary digits of x, and the number a byte stands for.
  function ToByte(x: nat): bv8
    requires x < 256
  {
    Flag(Odd(x, 128), 0x80) | Flag(Odd(x, 64), 0x40) | Flag(Odd(x, 32), 0x20) | Flag(Odd(x, 16), 0x10) |
    Flag(Odd(x, 8), 0x08) | Flag(Odd(x, 4), 0x04) | Flag(Odd(x, 2), 0x02) | Flag(Odd(x, 1), 0x01)
  }

  function Digit(r: bv8, b: bv8, weight: nat): nat { if r & b != 0 then weight else 0 }

  function Whole(r: bv8): nat {
    Digit(r, 0x80, 128) + Digit(r, 0x40, 64) + Digit(r, 0x20, 32) + Digit(r, 0x10, 16) +
    Digit(r, 0x08, 8) + Digit(r, 0x04, 4) + Digit(r, 0x02, 2) + Digit(r, 0x01, 1)
  }

  function Shl(b: bv8, n: bv8): bv8
    requires n <= 8
  {
    b << n
  }

  // The field writes, in the driver's order. The VCO bias and the sideband are inputs.
  function PllWrites(c: PllConfig, upper: bool, vcoDac: bv8): (ws: seq<FieldWrite>)
    requires Programmable(c)
    ensures |ws| == 14 && AllWritable(ws)
  {
    [FieldWrite(7, 0x80, if upper then 0x80 else 0),
     FieldWrite(17, 0xC0, Shl(1, 6)),
     FieldWrite(23, 0xC0, Shl(2, 6)),
     FieldWrite(18, 0x08, if c.feedbackSdm == 0 then 0x08 else 0),
     FieldWrite(16, 0xE0, Shl(ToByte(DividerIndex(c.seldiv)), 5)),
     FieldWrite(16, 0x10, if c.refdiv then 0x10 else 0),
     FieldWrite(20, 0xC0, Shl(ToByte((c.feedbackN - 13) % 4), 6)),
     FieldWrite(20, 0x3F, ToByte((c.feedbackN - 13) / 4)),
     FieldWrite(21, 0xFF, ToByte(c.feedbackSdm % 256)),
     FieldWrite(22, 0xFF, ToByte(c.feedbackSdm / 256)),
     FieldWrite(26, 0x0C, 0),
     FieldWrite(18, 0xE0, Shl(4, 5)),
     FieldWrite(19, 0x40, 0x40),
     FieldWrite(19, 0x3F, vcoDac)]
  }

  // Register fields as numbers.
  function LowSix(r: bv8): int { Whole(r & 0x3F) }

  function TopTwo(r: bv8): int { Whole(r >> 6) }

  function TopThree(r: bv8): int { Whole(r >> 5) }

  predicate Bit4(r: bv8) { r & 0x10 != 0 }

  // What the chip's registers mean.
  function DecodedN(regs: seq<bv8>): int
    requires |regs| == 32
  {
    13 + 4 * LowSix(regs[20]) + TopTwo(regs[20])
  }

  function DecodedSdm(regs: seq<bv8>): int
    requires |regs| == 32
  {
    Whole(regs[21]) + 256 * Whole(regs[22])
  }

  // The last two writes to a register decide its fields.
  lemma {:induction false} LastWrites(regs: seq<bv8>, ws: seq<FieldWrite>, k: nat, r: nat)
    requires |regs| == 32 && AllWritable(ws) && k <= |ws| && r < 32
    requires forall j :: k <= j < |ws| ==> ws[j].reg != r
    ensures OneByOne(regs, ws)[r] == OneByOne(regs, ws[..k])[r]
    decreases |ws|
  {
    hide Merge;
    if k < |ws| {
      LastWrites(regs, ws[..|ws| - 1], k, r);
      assert ws[..|ws| - 1][..k] == ws[..k];
    } else {
      assert ws[..k] == ws;
    }
  }

  lemma TwoWrites(regs: seq<bv8>, ws: seq<FieldWrite>, k: nat, r: nat)
    requires |regs| == 32 && AllWritable(ws) && k + 2 <= |ws| && ws[k].reg == r && ws[k + 1].reg == r
    requires forall j :: k + 2 <= j < |ws| ==> ws[j].reg != r
    ensures r < 32
    ensures OneByOne(regs, ws)[r]
            == Merge(Merge(OneByOne(regs, ws[..k])[r], ws[k].mask, ws[k].value), ws[k + 1].mask, ws[k + 1].value)
  {
    hide Merge, OneByOne;
    Prefix(ws, k + 1);
    Prefix(ws, k);
    OneWrite(regs, ws, k + 1, r);
    assert ws[..k + 1][..k] == ws[..k];
    OneWrite(regs, ws[..k + 1], k, r);
  }

  lemma OneWrite(regs: seq<bv8>, ws: seq<FieldWrite>, k: nat, r: nat)
    requires |regs| == 32 && AllWritable(ws) && k < |ws| && ws[k].reg == r
    requires forall j :: k + 1 <= j < |ws| ==> ws[j].reg != r
    ensures r < 32
    ensures OneByOne(regs, ws)[r] == Merge(OneByOne(regs, ws[..k])[r], ws[k].mask, ws[k].value)
  {
    hide Merge;
    assert Writable(ws[k]);
    LastWrites(regs, ws, k + 1, r);
    assert ws[..k + 1][..k] == ws[..k];
  }

  lemma RatioBits(r: bv8, s: bv8, n: bv8)
    requires s < 4
    ensures Merge(Merge(r, 0xC0, Shl(s, 6)), 0x3F, n) & 0x3F == n & 0x3F
    ensures Merge(Merge(r, 0xC0, Shl(s, 6)), 0x3F, n) >> 6 == s
  {
  }

  // The eight digits of a byte are independent.
  lemma EightFlags(b7: bool, b6: bool, b5: bool, b4: bool, b3: bool, b2: bool, b1: bool, b0: bool)
    ensures Whole(Flag(b7, 0x80) | Flag(b6, 0x40) | Flag(b5, 0x20) | Flag(b4, 0x10) |
                  Flag(b3, 0x08) | Flag(b2, 0x04) | Flag(b1, 0x02) | Flag(b0, 0x01))
            == (if b7 then 128 else 0) + (if b6 then 64 else 0) + (if b5 then 32 else 0) + (if b4 then 16 else 0) +
               (if b3 then 8 else 0) + (if b2 then 4 else 0) + (if b1 then 2 else 0) + (if b0 then 1 else 0)
  {
  }

  lemma EightDigits(x: nat)
    requires x < 256
    ensures x == (if Odd(x, 128) then 128 else 0) + (if Odd(x, 64) then 64 else 0) + (if Odd(x, 32) then 32 else 0) +
                 (if Odd(x, 16) then 16 else 0) + (if Odd(x, 8) then 8 else 0) + (if Odd(x, 4) then 4 else 0) +
                 (if Odd(x, 2) then 2 else 0) + (if Odd(x, 1) then 1 else 0)
  {
    OneDigit(x, 1);
    OneDigit(x, 2);
    OneDigit(x, 4);
    OneDigit(x, 8);
    OneDigit(x, 16);
    OneDigit(x, 32);
    OneDigit(x, 64);
    OneDigit(x, 128);
    hide Odd;
    assert x / 1 == x && x / 256 == 0;
  }

  lemma OneDigit(x: nat, w: nat)
    requires w == 1 || w == 2 || w == 4 || w == 8 || w == 16 || w == 32 || w == 64 || w == 128
    ensures x / w == 2 * (x / (2 * w)) + if Odd(x, w) then 1 else 0
  {
    assert x / (2 * w) == x / w / 2;
  }

  lemma ByteWhole(x: nat)
    requires x < 256
    ensures Whole(ToByte(x)) == x
  {
    hide Whole, Flag, Odd;
    EightFlags(Odd(x, 128), Odd(x, 64), Odd(x, 32), Odd(x, 16), Odd(x, 8), Odd(x, 4), Odd(x, 2), Odd(x, 1));
    EightDigits(x);
  }

  lemma LowDigits(x: nat)
    requires x <= 64
    ensures !Odd(x, 128) && (x < 64 ==> !Odd(x, 64))
    ensures x < 8 ==> !Odd(x, 64) && !Odd(x, 32) && !Odd(x, 16) && !Odd(x, 8)
    ensures x < 4 ==> !Odd(x, 4)
    ensures x == 64 ==> ToByte(x) == 0x40
  {
  }

  lemma SmallBytes(x: nat)
    requires x <= 64
    ensures x < 4 ==> ToByte(x) < 4
    ensures x < 8 ==> ToByte(x) < 8
    ensures x < 64 ==> ToByte(x) & 0x3F == ToByte(x)
    ensures x == 64 ==> ToByte(x) & 0x3F == 0
  {
    LowDigits(x);
    hide Odd;
  }

  lemma RatioFields(r: bv8, s: nat, n: nat)
    requires s < 4 && n <= 64
    ensures LowSix(Merge(Merge(r, 0xC0, Shl(ToByte(s), 6)), 0x3F, ToByte(n))) == if n < 64 then n else 0
    ensures TopTwo(Merge(Merge(r, 0xC0, Shl(ToByte(s), 6)), 0x3F, ToByte(n))) == s
  {
    hide Merge, Shl, ToByte, Whole;
    SmallBytes(s);
    SmallBytes(n);
    ByteWhole(s);
    ByteWhole(n);
    assert Whole(0) == 0 by { NoDigits(); }
    RatioBits(r, ToByte(s), ToByte(n));
  }

  lemma DividerBits(r: bv8, k: bv8, refdiv: bool)
    requires k < 8
    ensures Merge(Merge(r, 0xE0, Shl(k, 5)), 0x10, if refdiv then 0x10 else 0) >> 5 == k
    ensures Merge(Merge(r, 0xE0, Shl(k, 5)), 0x10, if refdiv then 0x10 else 0) & 0x10 != 0 <==> refdiv
  {
  }

  lemma DividerFields(r: bv8, k: nat, refdiv: bool)
    requires k < 8
    ensures TopThree(Merge(Merge(r, 0xE0, Shl(ToByte(k), 5)), 0x10, if refdiv then 0x10 else 0)) == k
    ensures Bit4(Merge(Merge(r, 0xE0, Shl(ToByte(k), 5)), 0x10, if refdiv then 0x10 else 0)) <==> refdiv
  {
    hide Merge, Shl, ToByte, Whole;
    SmallBytes(k);
    ByteWhole(k);
    DividerBits(r, ToByte(k), refdiv);
  }

  lemma FullMask(r: bv8, v: bv8)
    ensures Merge(r, 0xFF, v) == v
  {
  }

  lemma WholeByte(r: bv8, v: nat)
    requires v < 256
    ensures Whole(Merge(r, 0xFF, ToByte(v))) == v
  {
    hide Merge, ToByte, Whole;
    FullMask(r, ToByte(v));
    ByteWhole(v);
  }

  lemma NoDigits()
    ensures Whole(0) == 0
  {
  }

  lemma SplitRatio(n: nat)
    requires 13 <= n <= 269
    ensures (n - 13) % 4 < 4 && (n - 13) / 4 <= 64 && ((n - 13) / 4 == 64 <==> n == 269)
    ensures 13 + 4 * ((n - 13) / 4) + (n - 13) % 4 == n
  {
  }

  lemma ReadRatio(regs: seq<bv8>, c: PllConfig, upper: bool, vcoDac: bv8)
    requires |regs| == 32 && Programmable(c)
    ensures DecodedN(OneByOne(regs, PllWrites(c, upper, vcoDac))) == if c.feedbackN <= 268 then c.feedbackN else 13
  {
    hide OneByOne, Merge, Shl, ToByte, LowSix, TopTwo, AllWritable;
    var ws := PllWrites(c, upper, vcoDac);
    PllOrder(c, upper, vcoDac);
    Prefix(ws, 6);
    TwoWrites(regs, ws, 6, 20);
    hide PllWrites;
    SplitRatio(c.feedbackN);
    RatioFields(OneByOne(regs, ws[..6])[20], (c.feedbackN - 13) % 4, (c.feedbackN - 13) / 4);
  }

  lemma ReadSdm(regs: seq<bv8>, c: PllConfig, upper: bool, vcoDac: bv8)
    requires |regs| == 32 && Programmable(c)
    ensures DecodedSdm(OneByOne(regs, PllWrites(c, upper, vcoDac))) == c.feedbackSdm
  {
    hide OneByOne, Merge, Shl, ToByte, Whole, AllWritable;
    var ws := PllWrites(c, upper, vcoDac);
    PllOrder(c, upper, vcoDac);
    Prefix(ws, 8);
    Prefix(ws, 9);
    OneWrite(regs, ws, 8, 21);
    OneWrite(regs, ws, 9, 22);
    hide PllWrites;
    WholeByte(OneByOne(regs, ws[..8])[21], c.feedbackSdm % 256);
    WholeByte(OneByOne(regs, ws[..9])[22], c.feedbackSdm / 256);
  }

  lemma ReadDividers(regs: seq<bv8>, c: PllConfig, upper: bool, vcoDac: bv8)
    requires |regs| == 32 && Programmable(c)
    ensures TopThree(OneByOne(regs, PllWrites(c, upper, vcoDac))[16]) == DividerIndex(c.seldiv)
    ensures Bit4(OneByOne(regs, PllWrites(c, upper, vcoDac))[16]) <==> c.refdiv
  {
    hide OneByOne, Merge, Shl, ToByte, TopThree, Bit4, DividerIndex, AllWritable;
    var ws := PllWrites(c, upper, vcoDac);
    PllOrder(c, upper, vcoDac);
    Prefix(ws, 4);
    TwoWrites(regs, ws, 4, 16);
    hide PllWrites;
    DividerFields(OneByOne(regs, ws[..4])[16], DividerIndex(c.seldiv), c.refdiv);
  }

  /** Reading the programmed registers back gives the divider, the reference divider, the
      16-bit modulator value and the feedback integer; the integer is lost exactly when it
      is 269, which then reads as 13. */
  lemma PllRoundTrip(regs: seq<bv8>, c: PllConfig, upper: bool, vcoDac: bv8)
    requires |regs| == 32 && Programmable(c)
    ensures DecodedN(OneByOne(regs, PllWrites(c, upper, vcoDac))) == if c.feedbackN <= 268 then c.feedbackN else 13
    ensures DecodedSdm(OneByOne(regs, PllWrites(c, upper, vcoDac))) == c.feedbackSdm
    ensures TopThree(OneByOne(regs, PllWrites(c, upper, vcoDac))[16]) == DividerIndex(c.seldiv)
    ensures Bit4(OneByOne(regs, PllWrites(c, upper, vcoDac))[16]) <==> c.refdiv
  {
    hide *;
    ReadRatio(regs, c, upper, vcoDac);
    ReadSdm(regs, c, upper, vcoDac);
    ReadDividers(regs, c, upper, vcoDac);
  }

  lemma Prefix(ws: seq<FieldWrite>, k: nat)
    requires AllWritable(ws) && k <= |ws|
    ensures AllWritable(ws[..k])
  {
  }

  // Registers 16, 20, 21 and 22 are not written again after their fields.
  lemma PllOrder(c: PllConfig, upper: bool, vcoDac: bv8)
    requires Programmable(c)
    ensures DividerIndex(c.seldiv) < 8
    ensures forall j :: 6 <= j < 14 ==> PllWrites(c, upper, vcoDac)[j].reg != 16
    ensures forall j :: 8 <= j < 14 ==> PllWrites(c, upper, vcoDac)[j].reg != 20
    ensures forall j :: 9 <= j < 14 ==> PllWrites(c, upper, vcoDac)[j].reg != 21
    ensures forall j :: 10 <= j < 14 ==> PllWrites(c, upper, vcoDac)[j].reg != 22
  {
  }

  // ---------- the rest of the fields ----------

  lemma {:induction false} UnwrittenKept(regs: seq<bv8>, ws: seq<FieldWrite>, r: nat)
    requires |regs| == 32 && AllWritable(ws) && r < 32 && forall k :: 0 <= k < |ws| ==> ws[k].reg != r
    ensures OneByOne(regs, ws)[r] == regs[r]
    decreases |ws|
  {
    hide Merge;
    if ws != [] { UnwrittenKept(regs, ws[..|ws| - 1], r); }
  }

  lemma OnlyWrite(regs: seq<bv8>, ws: seq<FieldWrite>, k: nat, r: nat)
    requires |regs| == 32 && AllWritable(ws) && k < |ws| && ws[k].reg == r
    requires forall j :: 0 <= j < |ws| && j != k ==> ws[j].reg != r
    ensures r < 32 && OneByOne(regs, ws)[r] == Merge(regs[r], ws[k].mask, ws[k].value)
  {
    hide Merge, OneByOne;
    Prefix(ws, k);
    OneWrite(regs, ws, k, r);
    UnwrittenKept(regs, ws[..k], r);
  }

  lemma OnlyTwoWrites(regs: seq<bv8>, ws: seq<FieldWrite>, j: nat, k: nat, r: nat)
    requires |regs| == 32 && AllWritable(ws) && j < k < |ws| && ws[j].reg == ws[k].reg == r
    requires forall i :: 0 <= i < |ws| && i != j && i != k ==> ws[i].reg != r
    ensures r < 32
    ensures OneByOne(regs, ws)[r] == Merge(Merge(regs[r], ws[j].mask, ws[j].value), ws[k].mask, ws[k].value)
  {
    hide Merge, OneByOne;
    Prefix(ws, k);
    OneWrite(regs, ws, k, r);
    OnlyWrite(regs, ws[..k], j, r);
  }

  // What programming leaves in the chip, by register address and bit, whoever writes it: the
  // fields of this configuration, and every other bit as it was.
  ghost predicate Programmed(before: seq<bv8>, after: seq<bv8>, c: PllConfig, upper: bool, vcoDac: bv8) {
    && |before| == |after| == 32
    && (after[7] & 0x80 != 0 <==> upper) && SameBits(after[7], before[7], 0x7F)
    && after[17] & 0xC0 == 0x40 && SameBits(after[17], before[17], 0x3F)
    && after[23] & 0xC0 == 0x80 && SameBits(after[23], before[23], 0x3F)
    && (after[18] & 0x08 != 0 <==> c.feedbackSdm == 0)
    && after[18] & 0xE0 == 0x80 && SameBits(after[18], before[18], 0x17)
    && after[19] & 0x40 == 0x40 && after[19] & 0x3F == vcoDac & 0x3F && SameBits(after[19], before[19], 0x80)
    && after[26] & 0x0C == 0 && SameBits(after[26], before[26], 0xF3)
    && SameBits(after[16], before[16], 0x0F)
    && forall r :: 0 <= r < 32 && r !in {7, 16, 17, 18, 19, 20, 21, 22, 23, 26} ==> after[r] == before[r]
  }

  lemma FlagFields(r: bv8, upper: bool, off: bool)
    ensures Merge(r, 0x80, if upper then 0x80 else 0) & 0x80 != 0 <==> upper
    ensures SameBits(Merge(r, 0x80, if upper then 0x80 else 0), r, 0x7F)
    ensures Merge(Merge(r, 0x08, if off then 0x08 else 0), 0xE0, Shl(4, 5)) & 0x08 != 0 <==> off
    ensures Merge(Merge(r, 0x08, if off then 0x08 else 0), 0xE0, Shl(4, 5)) & 0xE0 == 0x80
    ensures SameBits(Merge(Merge(r, 0x08, if off then 0x08 else 0), 0xE0, Shl(4, 5)), r, 0x17)
  {
  }

  lemma ConstantFields(r: bv8, v: bv8)
    ensures Merge(r, 0xC0, Shl(1, 6)) & 0xC0 == 0x40 && Merge(r, 0xC0, Shl(2, 6)) & 0xC0 == 0x80
    ensures SameBits(Merge(r, 0xC0, v), r, 0x3F)
    ensures Merge(r, 0x0C, 0) & 0x0C == 0 && SameBits(Merge(r, 0x0C, 0), r, 0xF3)
    ensures Merge(Merge(r, 0x40, 0x40), 0x3F, v) & 0x40 == 0x40 && Merge(Merge(r, 0x40, 0x40), 0x3F, v) & 0x3F == v & 0x3F
    ensures SameBits(Merge(Merge(r, 0x40, 0x40), 0x3F, v), r, 0x80)
  {
  }

  lemma DividerRest(r: bv8, a: bv8, b: bv8)
    ensures SameBits(Merge(Merge(r, 0xE0, a), 0x10, b), r, 0x0F)
  {
  }

  lemma ProgrammedFlags(regs: seq<bv8>, c: PllConfig, upper: bool, vcoDac: bv8)
    requires |regs| == 32 && Programmable(c)
    ensures var after := OneByOne(regs, PllWrites(c, upper, vcoDac));
            && (after[7] & 0x80 != 0 <==> upper) && SameBits(after[7], regs[7], 0x7F)
            && (after[18] & 0x08 != 0 <==> c.feedbackSdm == 0)
            && after[18] & 0xE0 == 0x80 && SameBits(after[18], regs[18], 0x17)
  {
    hide OneByOne, Merge, Shl, ToByte, SameBits, AllWritable;
    var ws := PllWrites(c, upper, vcoDac);
    OnlyWrite(regs, ws, 0, 7);
    OnlyTwoWrites(regs, ws, 3, 11, 18);
    FlagFields(regs[7], upper, true);
    FlagFields(regs[18], true, c.feedbackSdm == 0);
  }

  lemma ProgrammedConstants(regs: seq<bv8>, c: PllConfig, upper: bool, vcoDac: bv8)
    requires |regs| == 32 && Programmable(c)
    ensures var after := OneByOne(regs, PllWrites(c, upper, vcoDac));
            && after[17] & 0xC0 == 0x40 && SameBits(after[17], regs[17], 0x3F)
            && after[23] & 0xC0 == 0x80 && SameBits(after[23], regs[23], 0x3F)
            && after[19] & 0x40 == 0x40 && after[19] & 0x3F == vcoDac & 0x3F && SameBits(after[19], regs[19], 0x80)
            && after[26] & 0x0C == 0 && SameBits(after[26], regs[26], 0xF3)
            && SameBits(after[16], regs[16], 0x0F)
  {
    hide OneByOne, Merge, Shl, ToByte, SameBits, AllWritable;
    var ws := PllWrites(c, upper, vcoDac);
    OnlyWrite(regs, ws, 1, 17);
    OnlyWrite(regs, ws, 2, 23);
    OnlyTwoWrites(regs, ws, 12, 13, 19);
    OnlyWrite(regs, ws, 10, 26);
    OnlyTwoWrites(regs, ws, 4, 5, 16);
    ConstantFields(regs[17], Shl(1, 6));
    ConstantFields(regs[23], Shl(2, 6));
    ConstantFields(regs[19], vcoDac);
    ConstantFields(regs[26], 0);
    DividerRest(regs[16], ws[4].value, ws[5].value);
  }

  /** Every bit of the chip after programming, apart from the ratio and divider fields that
      PllRoundTrip reads back. */
  lemma PllProgrammed(regs: seq<bv8>, c: PllConfig, upper: bool, vcoDac: bv8)
    requires |regs| == 32 && Programmable(c)
    ensures Programmed(regs, OneByOne(regs, PllWrites(c, upper, vcoDac)), c, upper, vcoDac)
  {
    hide OneByOne, Merge, Shl, ToByte, SameBits, AllWritable;
    ProgrammedFlags(regs, c, upper, vcoDac);
    ProgrammedConstants(regs, c, upper, vcoDac);
    var ws := PllWrites(c, upper, vcoDac);
    forall r | 0 <= r < 32 && r !in {7, 16, 17, 18, 19, 20, 21, 22, 23, 26}
      ensures OneByOne(regs, ws)[r] == regs[r]
    {
      UnwrittenKept(regs, ws, r);
    }
  }

  function TwoTo(n: nat): nat { if n == 0 then 1 else 2 * TwoTo(n - 1) }

  // The chip divides by twice two to the power of its divider field.
  lemma DividerMeaning(seldiv: nat)
    requires IsDivider(seldiv)
    ensures seldiv == 2 * TwoTo(DividerIndex(seldiv))
  {
    assert TwoTo(0) == 1 && TwoTo(1) == 2 && TwoTo(2) == 4;
    assert TwoTo(3) == 8 && TwoTo(4) == 16 && TwoTo(5) == 32;
  }

  /** Programming the synthesiser through a change set: one payload, after which the chip's
      registers hold the configuration, and all other bits what they held before. */
  method ConfigurePll(regs: seq<bv8>, c: PllConfig, upper: bool, vcoDac: bv8) returns (after: seq<bv8>)
    requires |regs| == 32 && Programmable(c)
    ensures |after| == 32 && Programmed(regs, after, c, upper, vcoDac)
    ensures 13 + 4 * Whole(after[20] & 0x3F) + Whole(after[20] >> 6) == if c.feedbackN <= 268 then c.feedbackN else 13
    ensures Whole(after[21]) + 256 * Whole(after[22]) == c.feedbackSdm
    ensures 2 * TwoTo(Whole(after[16] >> 5)) == c.seldiv && (after[16] & 0x10 != 0 <==> c.refdiv)
  {
    hide PllWrites, OneByOne, Collect, Encodes, ApplyPayload, Sendable, Programmed, DividerIndex, TwoTo, Whole, AllWritable;
    var cs := new ChangeSet();
    cs.SetAll(PllWrites(c, upper, vcoDac));
    var out := new bv8[54];
    var first, size := cs.PreparePayload(out);
    var p := Payload(first, out[..size]);
    EncodedSendable(p, Collect(Empty(), PllWrites(c, upper, vcoDac)));
    BatchedEqualsSequential(regs, PllWrites(c, upper, vcoDac), p);
    PllRoundTrip(regs, c, upper, vcoDac);
    PllProgrammed(regs, c, upper, vcoDac);
    DividerMeaning(c.seldiv);
    after := ApplyPayload(regs, p);
  }

  predicate SingleBit(m: bv8) {
    m == 0x80 || m == 0x40 || m == 0x20 || m == 0x10 || m == 0x08 || m == 0x04 || m == 0x02 || m == 0x01
  }

  lemma DigitSum(a: bv8, b: bv8, m: bv8, weight: nat)
    requires a & b == 0 && SingleBit(m)
    ensures Digit(a | b, m, weight) == Digit(a, m, weight) + Digit(b, m, weight)
  {
  }

  lemma WholeSum(a: bv8, b: bv8)
    requires a & b == 0
    ensures Whole(a | b) == Whole(a) + Whole(b)
  {
    DigitSum(a, b, 0x80, 128);
    DigitSum(a, b, 0x40, 64);
    DigitSum(a, b, 0x20, 32);
    DigitSum(a, b, 0x10, 16);
    DigitSum(a, b, 0x08, 8);
    DigitSum(a, b, 0x04, 4);
    DigitSum(a, b, 0x02, 2);
    DigitSum(a, b, 0x01, 1);
    hide Digit;
  }

  /** Whole is the number a byte stands for: the value of every bit, and the sum of disjoint bits. */
  lemma WholeIsValue(a: bv8, b: bv8)
    ensures Whole(0x01) == 1 && Whole(0x02) == 2 && Whole(0x04) == 4 && Whole(0x08) == 8
    ensures Whole(0x10) == 16 && Whole(0x20) == 32 && Whole(0x40) == 64 && Whole(0x80) == 128
    ensures a & b == 0 ==> Whole(a | b) == Whole(a) + Whole(b)
  {
    if a & b == 0 {
      WholeSum(a, b);
    }
  }

  lemma EncodedSendable(p: Payload, es: seq<Entry>)
    requires |es| == 32 && Encodes(p, es)
    ensures Sendable(p)
  {
  }
}
