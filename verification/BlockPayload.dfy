/** What the payload of a block is: its words unpacked and, in baseband mode, mixed. The code
    unpacks block by block but mixes a whole run at once. */
module BlockPayload {
  import opened Fixed16
  import opened StreamDispatch
  import opened Unpack
  import opened Fs4Mix

  // ---------- bits and values ----------

  function High(x: bv16): bv8 { (x >> 8) as bv8 }

  function LowByte(x: bv16): bv8 { (x & 0xFF) as bv8 }

  function ByteValue(b: bv8): (r: nat)
    ensures r < 256
  {
    b as int
  }

  function ByteOf(v: nat): bv8
    requires v < 256
  {
    v as bv8
  }

  // The two's complement value.
  function Value(x: bv16): int16 {
    var v := 256 * ByteValue(High(x)) + ByteValue(LowByte(x));
    if v >= 32768 then v - 65536 else v
  }

  function FromBytes(high: bv8, low: bv8): bv16 { ((high as bv16) << 8) | (low as bv16) }

  function Bits(v: int16): bv16 {
    var u := if v < 0 then v + 65536 else v;
    FromBytes(ByteOf(u / 256), ByteOf(u % 256))
  }

  lemma BytesJoin(x: bv16)
    ensures FromBytes(High(x), LowByte(x)) == x
  {
  }

  lemma ByteBack(b: bv8)
    ensures ByteOf(ByteValue(b)) == b
  {
  }

  lemma SplitBytes(high: int, low: int)
    requires 0 <= high < 256 && 0 <= low < 256
    ensures (256 * high + low) / 256 == high && (256 * high + low) % 256 == low
  {
  }

  // Adding 65536 to a negative value undoes the subtraction.
  lemma BitsOf(high: bv8, low: bv8, v: int16)
    requires v == 256 * ByteValue(high) + ByteValue(low) || v == 256 * ByteValue(high) + ByteValue(low) - 65536
    ensures Bits(v) == FromBytes(high, low)
  {
    hide FromBytes, ByteValue, ByteOf;
    SplitBytes(ByteValue(high), ByteValue(low));
    ByteBack(high);
    ByteBack(low);
  }

  /** Taking samples as integers loses nothing. */
  lemma ValueKeepsBits(x: bv16)
    ensures Bits(Value(x)) == x
  {
    hide High, LowByte, Bits, FromBytes, ByteValue;
    BitsOf(High(x), LowByte(x), Value(x));
    BytesJoin(x);
  }

  function Decoded(m: seq<Cs>): (r: seq<Cs16>)
    ensures |r| == |m|
  {
    seq(|m|, k requires 0 <= k < |m| => Cs16(Value(m[k].i), Value(m[k].q)))
  }

  // ---------- from words to samples ----------

  // Real samples as they are, for low-IF mode.
  function Plain(x: seq<bv16>): (r: seq<Cs>)
    ensures |r| == |x|
  {
    seq(|x|, k requires 0 <= k < |x| => Cs(x[k], 0))
  }

  function Unpacked(invert: bool, words: seq<bv32>): (r: seq<bv16>)
    requires |words| % 3 == 0
    ensures |r| == |words| / 3 * 8
  {
    Signed(invert, Samples(words, |words| / 3))
  }

  function FrontEnd(baseband: bool, x: seq<bv16>): (r: seq<Cs16>)
    ensures |r| == |x|
  {
    Decoded(if baseband then Mixed(x) else Plain(x))
  }

  datatype RawBlock = RawBlock(header: Header, words: seq<bv32>)

  // Eight samples to three words.
  predicate Sized(c: Config, raws: seq<RawBlock>) {
    c.samplesPerBlock % 8 == 0 && forall k :: 0 <= k < |raws| ==> |raws[k].words| == c.samplesPerBlock / 8 * 3
  }

  // Low-IF conversion never inverts.
  function ToBlock(baseband: bool, invert: bool, raw: RawBlock): Block
    requires |raw.words| % 3 == 0
  {
    Block(raw.header, FrontEnd(baseband, Unpacked(baseband && invert, raw.words)))
  }

  function ToBlocks(c: Config, baseband: bool, invert: bool, raws: seq<RawBlock>): (r: seq<Block>)
    requires Sized(c, raws)
    ensures |r| == |raws|
  {
    seq(|raws|, k requires 0 <= k < |raws| => ToBlock(baseband, invert, raws[k]))
  }

  // The run as the unpacking loop leaves it, block after block.
  function RunSamples(invert: bool, raws: seq<RawBlock>): seq<bv16>
    requires forall k :: 0 <= k < |raws| ==> |raws[k].words| % 3 == 0
  {
    if raws == [] then []
    else RunSamples(invert, raws[..|raws| - 1]) + Unpacked(invert, raws[|raws| - 1].words)
  }

  function RunWords(raws: seq<RawBlock>): seq<bv32> {
    if raws == [] then [] else RunWords(raws[..|raws| - 1]) + raws[|raws| - 1].words
  }

  // ---------- a run at once ----------

  lemma FrontEndSplits(baseband: bool, a: seq<bv16>, b: seq<bv16>)
    requires |a| % 4 == 0
    ensures FrontEnd(baseband, a + b) == FrontEnd(baseband, a) + FrontEnd(baseband, b)
  {
    hide Value, MixAt;
    if baseband { MixChunks(a, b); } else { assert Plain(a + b) == Plain(a) + Plain(b); }
  }

  lemma SameGroup(a: seq<bv32>, b: seq<bv32>, m: nat, n: nat)
    requires |a| == 3 * m && 3 * n + 3 <= |b|
    ensures Samples(a + b, m + n + 1)
            == Samples(a + b, m + n) + Group(b[3 * n], b[3 * n + 1], b[3 * n + 2])
  {
    hide Group, Samples;
    OneMoreGroup(a + b, m + n);
    assert (a + b)[3 * (m + n)] == b[3 * n];
    assert (a + b)[3 * (m + n) + 1] == b[3 * n + 1];
    assert (a + b)[3 * (m + n) + 2] == b[3 * n + 2];
  }

  lemma {:induction false} SamplesOfFront(a: seq<bv32>, b: seq<bv32>, m: nat)
    requires 3 * m <= |a|
    ensures Samples(a + b, m) == Samples(a, m)
  {
    hide Group;
    if m > 0 { SamplesOfFront(a, b, m - 1); }
  }

  lemma {:induction false} SamplesOfConcat(a: seq<bv32>, b: seq<bv32>, m: nat, n: nat)
    requires |a| == 3 * m && 3 * n <= |b|
    ensures Samples(a + b, m + n) == Samples(a, m) + Samples(b, n)
  {
    hide Group, Samples;
    if n == 0 {
      SamplesOfFront(a, b, m);
      NoSamples(b);
    } else {
      SamplesOfConcat(a, b, m, n - 1);
      SameGroup(a, b, m, n - 1);
      OneMoreGroup(b, n - 1);
    }
  }

  lemma NoSamples(b: seq<bv32>)
    ensures Samples(b, 0) == []
  {
  }

  lemma UnpackedIs(invert: bool, words: seq<bv32>, n: nat)
    requires |words| == 3 * n
    ensures |words| % 3 == 0 && Unpacked(invert, words) == Signed(invert, Samples(words, n))
  {
    hide Samples, Signed;
    assert 3 * n / 3 == n;
  }

  lemma UnpackedSplits(invert: bool, a: seq<bv32>, b: seq<bv32>, m: nat, n: nat)
    requires |a| == 3 * m && |b| == 3 * n
    ensures |a| % 3 == |b| % 3 == |a + b| % 3 == 0
    ensures Unpacked(invert, a + b) == Unpacked(invert, a) + Unpacked(invert, b)
  {
    hide Samples, Signed, Unpacked;
    UnpackedIs(invert, a, m);
    UnpackedIs(invert, b, n);
    UnpackedIs(invert, a + b, m + n);
    SamplesOfConcat(a, b, m, n);
    SignedConcat(invert, Samples(a, m), Samples(b, n), 4 * m);
  }

  lemma BlockWords(spb: nat)
    requires spb % 8 == 0
    ensures (spb / 8 * 3) % 3 == 0 && spb / 8 * 3 == 3 * (spb / 8) && 8 * (spb / 8) == spb
  {
  }

  lemma SizedWords(c: Config, raws: seq<RawBlock>)
    requires Sized(c, raws)
    ensures forall k :: 0 <= k < |raws| ==> |raws[k].words| % 3 == 0 && |raws[k].words| == 3 * (c.samplesPerBlock / 8)
  {
    BlockWords(c.samplesPerBlock);
  }

  /** The payloads of a run, joined, are what one pass of the front end makes of the whole run:
      the mixer keeps its phase across blocks. */
  lemma {:induction false} RunPayload(c: Config, baseband: bool, invert: bool, raws: seq<RawBlock>)
    requires Sized(c, raws)
    ensures forall k :: 0 <= k < |raws| ==> |raws[k].words| % 3 == 0
    ensures |RunSamples(baseband && invert, raws)| == 8 * (|raws| * (c.samplesPerBlock / 8))
    ensures Payload(ToBlocks(c, baseband, invert, raws)) == FrontEnd(baseband, RunSamples(baseband && invert, raws))
  {
    hide FrontEnd, Unpacked;
    SizedWords(c, raws);
    if raws == [] {
      assert FrontEnd(baseband, []) == [];
    } else {
      var n := |raws| - 1;
      RunPayload(c, baseband, invert, raws[..n]);
      assert ToBlocks(c, baseband, invert, raws)[..n] == ToBlocks(c, baseband, invert, raws[..n]);
      RealGroups(n, c.samplesPerBlock / 8);
      FrontEndSplits(baseband, RunSamples(baseband && invert, raws[..n]), Unpacked(baseband && invert, raws[n].words));
    }
  }

  lemma RealGroups(n: nat, g: nat)
    ensures 8 * ((n + 1) * g) == 8 * (n * g) + 8 * g && (8 * (n * g)) % 4 == 0
  {
    assert (8 * (n * g)) / 4 == 2 * (n * g);
  }

  /** And unpacking block by block is unpacking all words at once. */
  lemma {:induction false} RunUnpacking(c: Config, invert: bool, raws: seq<RawBlock>)
    requires Sized(c, raws)
    ensures forall k :: 0 <= k < |raws| ==> |raws[k].words| % 3 == 0
    ensures |RunWords(raws)| == 3 * (|raws| * (c.samplesPerBlock / 8))
    ensures |RunWords(raws)| % 3 == 0 && RunSamples(invert, raws) == Unpacked(invert, RunWords(raws))
  {
    hide Unpacked;
    SizedWords(c, raws);
    if raws == [] {
      NoWords(invert);
    } else {
      var n, g := |raws| - 1, c.samplesPerBlock / 8;
      RunUnpacking(c, invert, raws[..n]);
      RealGroups(n, g);
      UnpackedSplits(invert, RunWords(raws[..n]), raws[n].words, n * g, g);
    }
  }

  lemma NoWords(invert: bool)
    ensures Unpacked(invert, []) == []
  {
  }

  lemma ZeroValue()
    ensures Value(0) == 0
  {
  }

  lemma FrontEndAt(baseband: bool, x: seq<bv16>, i: nat)
    requires i < |x|
    ensures FrontEnd(baseband, x)[i] ==
              if !baseband || i % 4 == 0 then Cs16(Value(x[i]), 0)
              else if i % 4 == 1 then Cs16(0, Value(Neg16(x[i])))
              else if i % 4 == 2 then Cs16(Value(Neg16(x[i])), 0)
              else Cs16(0, Value(x[i]))
  {
    hide Value;
    ZeroValue();
  }

  lemma UnpackedAt(invert: bool, words: seq<bv32>, n: nat, i: nat)
    requires |words| == 3 * n && i < 8 * n
    ensures |words| % 3 == 0
    ensures Unpacked(invert, words)[i] == if invert && i % 2 == 1 then Neg16(Samples(words, n)[i]) else Samples(words, n)[i]
  {
    hide Samples;
    UnpackedIs(invert, words, n);
  }

  lemma NegTwice(x: bv16)
    ensures Neg16(Neg16(x)) == x && x + Neg16(x) == 0
  {
  }

  // What the mixer makes of sample i, which the unpacking may already have negated.
  lemma Turned(baseband: bool, invert: bool, x: bv16, y: bv16, i: nat)
    requires y == if baseband && invert && i % 2 == 1 then Neg16(x) else x
    ensures !baseband || i % 4 == 0 ==> y == x
    ensures baseband && i % 4 == 2 ==> Neg16(y) == Neg16(x)
    ensures baseband && i % 4 == 1 ==> Neg16(y) == if invert then x else Neg16(x)
    ensures baseband && i % 4 == 3 ==> y == if invert then Neg16(x) else x
  {
    hide Neg16;
    NegTwice(x);
  }

  lemma RunAsWords(c: Config, baseband: bool, invert: bool, raws: seq<RawBlock>, n: nat)
    requires Sized(c, raws) && n == |raws| * (c.samplesPerBlock / 8)
    ensures |RunWords(raws)| == 3 * n && |RunWords(raws)| % 3 == 0 && |Unpacked(baseband && invert, RunWords(raws))| == 8 * n
    ensures Payload(ToBlocks(c, baseband, invert, raws)) == FrontEnd(baseband, Unpacked(baseband && invert, RunWords(raws)))
  {
    hide FrontEnd, Unpacked, Sized;
    RunPayload(c, baseband, invert, raws);
    RunUnpacking(c, baseband && invert, raws);
  }

  /** Sample by sample: in low-IF mode the unpacked samples are handed on as they are; in
      baseband mode sample i is multiplied by the i-th power of -i, or of i when the spectrum
      has to be inverted. */
  lemma RunSampleAt(c: Config, baseband: bool, invert: bool, raws: seq<RawBlock>, n: nat, i: nat)
    requires Sized(c, raws) && n == |raws| * (c.samplesPerBlock / 8) && i < 8 * n
    ensures |RunWords(raws)| == 3 * n && i < |Payload(ToBlocks(c, baseband, invert, raws))|
    ensures var x := Samples(RunWords(raws), n)[i];
            Payload(ToBlocks(c, baseband, invert, raws))[i] ==
              if !baseband || i % 4 == 0 then Cs16(Value(x), 0)
              else if i % 4 == 2 then Cs16(Value(Neg16(x)), 0)
              else if (i % 4 == 3) != invert then Cs16(0, Value(x))
              else Cs16(0, Value(Neg16(x)))
  {
    hide Value, FrontEnd, Unpacked, Samples, RunWords, Payload, ToBlocks, Sized, Neg16;
    RunAsWords(c, baseband, invert, raws, n);
    var y := Unpacked(baseband && invert, RunWords(raws));
    UnpackedAt(baseband && invert, RunWords(raws), n, i);
    FrontEndAt(baseband, y, i);
    Turned(baseband, invert, Samples(RunWords(raws), n)[i], y[i], i);
  }

  // Blocks of that size are what dispatch expects.
  lemma RawBlocksReceived(c: Config, baseband: bool, invert: bool, raws: seq<RawBlock>)
    requires Sized(c, raws) && forall k :: 0 <= k < |raws| ==> raws[k].header.sequence < 0x1_0000_0000
    ensures Received(c, ToBlocks(c, baseband, invert, raws))
  {
    hide FrontEnd;
    SizedWords(c, raws);
    BlockWords(c.samplesPerBlock);
  }
}
