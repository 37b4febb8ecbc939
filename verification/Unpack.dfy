/** Unpacking raw ADC words: three 32-bit words hold eight 12-bit samples, which come
    out scaled to 16 bits. Six samples sit in the low 12 bits of the six half-words;
    the other two are spread over the top nibbles. */
module Unpack {
  // Two 16-bit lanes of a word, least significant first.
  datatype Halves = Halves(lo: bv16, hi: bv16)

  function Split(w: bv32): Halves {
    Halves((w & 0xFFFF) as bv16, (w >> 16) as bv16)
  }

  function Join(h: Halves): bv32 {
    (h.lo as bv32) | ((h.hi as bv32) << 16)
  }

  // The low 12 bits of a half-word, scaled by 16.
  function Low(h: bv16): bv16 { h << 4 }

  function Tops(a: bv16, b: bv16, c: bv16): bv16 {
    (a & 0xF000) | ((b & 0xF000) >> 4) | ((c & 0xF000) >> 8)
  }

  // The eight samples of three words.
  function Group(first: bv32, second: bv32, third: bv32): (r: seq<bv16>)
    ensures |r| == 8
  {
    var a, b, c := Split(first), Split(second), Split(third);
    [Low(a.lo), Low(a.hi), Low(b.lo), Low(b.hi), Low(c.lo), Low(c.hi),
     Tops(a.lo, b.lo, c.lo), Tops(a.hi, b.hi, c.hi)]
  }

  // Negation in 16 bits; the most negative value is its own negation.
  function Neg16(x: bv16): bv16 { 0 - x }

  // Every second sample negated, or none.
  function Signed(invert: bool, g: seq<bv16>): (r: seq<bv16>)
    ensures |r| == |g|
  {
    seq(|g|, k requires 0 <= k < |g| => if invert && k % 2 == 1 then Neg16(g[k]) else g[k])
  }

  // All samples of the first n groups.
  function Samples(words: seq<bv32>, n: nat): (r: seq<bv16>)
    requires 3 * n <= |words|
    ensures |r| == 8 * n
  {
    if n == 0 then []
    else Samples(words, n - 1) + Group(words[3 * n - 3], words[3 * n - 2], words[3 * n - 1])
  }

  // ---------- packing back ----------

  function PackHalf(sample: bv16, top: bv16, shift: bv16): bv16
    requires shift <= 8
  {
    (sample >> 4) | ((top << shift) & 0xF000)
  }

  function PackGroup(g: seq<bv16>): (bv32, bv32, bv32)
    requires |g| == 8
  {
    (Join(Halves(PackHalf(g[0], g[6], 0), PackHalf(g[1], g[7], 0))),
     Join(Halves(PackHalf(g[2], g[6], 4), PackHalf(g[3], g[7], 4))),
     Join(Halves(PackHalf(g[4], g[6], 8), PackHalf(g[5], g[7], 8))))
  }

  lemma SplitJoin(w: bv32, h: Halves)
    ensures Join(Split(w)) == w
    ensures Split(Join(h)) == h
  {
  }

  lemma HalfRoundTrip(a: bv16, b: bv16, c: bv16)
    ensures PackHalf(Low(a), Tops(a, b, c), 0) == a
    ensures PackHalf(Low(b), Tops(a, b, c), 4) == b
    ensures PackHalf(Low(c), Tops(a, b, c), 8) == c
  {
  }

  // A sample as the unpacker produces it: a 12-bit value times 16.
  predicate Scaled(x: bv16) { x & 0xF == 0 }

  lemma SampleRoundTrip(x: bv16, y: bv16, z: bv16, top: bv16)
    requires Scaled(x) && Scaled(y) && Scaled(z) && Scaled(top)
    ensures Low(PackHalf(x, top, 0)) == x && Low(PackHalf(y, top, 4)) == y && Low(PackHalf(z, top, 8)) == z
    ensures Tops(PackHalf(x, top, 0), PackHalf(y, top, 4), PackHalf(z, top, 8)) == top
  {
  }

  lemma PackUnpacked(first: bv32, second: bv32, third: bv32)
    ensures PackGroup(Group(first, second, third)) == (first, second, third)
  {
    hide Split, Join, PackHalf, Tops, Low, Scaled;
    var a, b, c := Split(first), Split(second), Split(third);
    HalfRoundTrip(a.lo, b.lo, c.lo);
    HalfRoundTrip(a.hi, b.hi, c.hi);
    SplitJoin(first, a);
    SplitJoin(second, b);
    SplitJoin(third, c);
  }

  lemma UnpackPacked(g: seq<bv16>)
    requires |g| == 8 && forall k :: 0 <= k < 8 ==> Scaled(g[k])
    ensures Group(PackGroup(g).0, PackGroup(g).1, PackGroup(g).2) == g
  {
    hide Split, Join, PackHalf, Tops, Low, Scaled;
    SampleRoundTrip(g[0], g[2], g[4], g[6]);
    SampleRoundTrip(g[1], g[3], g[5], g[7]);
    SplitJoin(0, Halves(PackHalf(g[0], g[6], 0), PackHalf(g[1], g[7], 0)));
    SplitJoin(0, Halves(PackHalf(g[2], g[6], 4), PackHalf(g[3], g[7], 4)));
    SplitJoin(0, Halves(PackHalf(g[4], g[6], 8), PackHalf(g[5], g[7], 8)));
  }

  lemma GroupScaled(first: bv32, second: bv32, third: bv32)
    ensures forall k :: 0 <= k < 8 ==> Scaled(Group(first, second, third)[k])
  {
  }

  // The words whose samples are g.
  function Packed(g: seq<bv16>, n: nat): (r: seq<bv32>)
    requires |g| == 8 * n
    ensures |r| == 3 * n
  {
    if n == 0 then []
    else Packed(g[..8 * n - 8], n - 1) + Triple(PackGroup(g[8 * n - 8..]))
  }

  function Triple(p: (bv32, bv32, bv32)): (r: seq<bv32>)
    ensures |r| == 3
  {
    [p.0, p.1, p.2]
  }

  lemma SamplesSplit(words: seq<bv32>, n: nat)
    requires 0 < n && 3 * n <= |words|
    ensures Samples(words, n)[..8 * n - 8] == Samples(words, n - 1)
    ensures Samples(words, n)[8 * n - 8..] == Group(words[3 * n - 3], words[3 * n - 2], words[3 * n - 1])
  {
    hide Group;
  }

  /** Unpacking loses nothing: packing the samples gives the words back. */
  lemma {:induction false} PackedSamples(words: seq<bv32>, n: nat)
    requires 3 * n <= |words|
    ensures Packed(Samples(words, n), n) == words[..3 * n]
  {
    hide Group, PackGroup, Samples;
    if n > 0 {
      var a, b, c := words[3 * n - 3], words[3 * n - 2], words[3 * n - 1];
      PackedSamples(words, n - 1);
      SamplesSplit(words, n);
      PackUnpacked(a, b, c);
      assert words[..3 * n] == words[..3 * n - 3] + [a, b, c];
    }
  }

  lemma {:induction false} SamplesLocal(u: seq<bv32>, v: seq<bv32>, n: nat)
    requires 3 * n <= |u| && 3 * n <= |v| && u[..3 * n] == v[..3 * n]
    ensures Samples(u, n) == Samples(v, n)
  {
    hide Group;
    if n > 0 {
      assert forall k :: 0 <= k < 3 * n ==> u[..3 * n][k] == v[..3 * n][k];
      assert u[..3 * (n - 1)] == v[..3 * (n - 1)];
      SamplesLocal(u, v, n - 1);
    }
  }

  lemma SamplesAppend(words: seq<bv32>, t: (bv32, bv32, bv32), n: nat)
    requires |words| == 3 * n
    ensures Samples(words + Triple(t), n + 1) == Samples(words, n) + Group(t.0, t.1, t.2)
  {
    hide Group;
    SamplesLocal(words + Triple(t), words, n);
  }

  /** Every buffer of scaled samples is the unpacking of some words. */
  lemma {:induction false} SamplesPacked(g: seq<bv16>, n: nat)
    requires |g| == 8 * n && forall k :: 0 <= k < |g| ==> Scaled(g[k])
    ensures Samples(Packed(g, n), n) == g
  {
    hide Group, PackGroup, Scaled, Samples, Triple;
    if n == 0 {
      assert Samples(Packed(g, n), 0) == [] by { NoSamples(Packed(g, n)); }
    } else {
      var front, last := g[..8 * n - 8], g[8 * n - 8..];
      SamplesPacked(front, n - 1);
      UnpackPacked(last);
      SamplesAppend(Packed(front, n - 1), PackGroup(last), n - 1);
      assert g == front + last;
    }
  }

  lemma NoSamples(words: seq<bv32>)
    ensures Samples(words, 0) == []
  {
  }

  // ---------- the scalar kernel ----------

  function ScalarGroup(first: bv32, second: bv32, third: bv32): (r: seq<bv16>)
    ensures |r| == 8
  {
    [((first & 0xFFF) << 4) as bv16,
     ((first & 0x0FFF_0000) >> 12) as bv16,
     ((second & 0xFFF) << 4) as bv16,
     ((second & 0x0FFF_0000) >> 12) as bv16,
     ((third & 0xFFF) << 4) as bv16,
     ((third & 0x0FFF_0000) >> 12) as bv16,
     ((first & 0xF000) | ((second & 0xF000) >> 4) | ((third & 0xF000) >> 8)) as bv16,
     (((first & 0xF000_0000) >> 16) | ((second & 0xF000_0000) >> 20) | ((third & 0xF000_0000) >> 24)) as bv16]
  }

  lemma MaskedLow(w: bv32)
    ensures ((w & 0xFFF) << 4) as bv16 == Low(Split(w).lo)
    ensures ((w & 0x0FFF_0000) >> 12) as bv16 == Low(Split(w).hi)
  {
  }

  lemma MaskedTops(u: bv32, v: bv32, w: bv32)
    ensures ((u & 0xF000) | ((v & 0xF000) >> 4) | ((w & 0xF000) >> 8)) as bv16
            == Tops(Split(u).lo, Split(v).lo, Split(w).lo)
    ensures (((u & 0xF000_0000) >> 16) | ((v & 0xF000_0000) >> 20) | ((w & 0xF000_0000) >> 24)) as bv16
            == Tops(Split(u).hi, Split(v).hi, Split(w).hi)
  {
  }

  lemma ScalarIsGroup(first: bv32, second: bv32, third: bv32)
    ensures ScalarGroup(first, second, third) == Group(first, second, third)
  {
    hide Low, Tops, Split;
    MaskedLow(first);
    MaskedLow(second);
    MaskedLow(third);
    MaskedTops(first, second, third);
  }

  lemma EvenShift(half: nat, k: nat)
    ensures (2 * half + k) % 2 == k % 2
  {
    assert (2 * half + k) / 2 == half + k / 2;
  }

  lemma SignedConcat(invert: bool, a: seq<bv16>, b: seq<bv16>, half: nat)
    requires |a| == 2 * half
    ensures Signed(invert, a + b) == Signed(invert, a) + Signed(invert, b)
  {
    hide Neg16;
    forall k: nat | k < |b| ensures Signed(invert, a + b)[2 * half + k] == Signed(invert, b)[k] { EvenShift(half, k); }
  }

  lemma OneMoreGroup(words: seq<bv32>, n: nat)
    requires 3 * n + 3 <= |words|
    ensures Samples(words, n + 1) == Samples(words, n) + Group(words[3 * n], words[3 * n + 1], words[3 * n + 2])
  {
    hide Group;
  }

  // The groups from word `at` on, one more at a time.
  lemma SignedStep(invert: bool, words: seq<bv32>, n: nat)
    requires 3 * n + 3 <= |words|
    ensures Signed(invert, Samples(words, n + 1))
            == Signed(invert, Samples(words, n)) + Signed(invert, Group(words[3 * n], words[3 * n + 1], words[3 * n + 2]))
  {
    hide Group, Signed, Samples;
    OneMoreGroup(words, n);
    SignedConcat(invert, Samples(words, n), Group(words[3 * n], words[3 * n + 1], words[3 * n + 2]), 4 * n);
  }

  // Stores a block of samples.
  method Store(out: array<bv16>, at: nat, block: seq<bv16>)
    requires at + |block| <= out.Length
    modifies out
    ensures out[..at + |block|] == old(out[..at]) + block
    ensures out[at + |block|..] == old(out[at + |block|..])
  {
    forall k | 0 <= k < |block| { out[at + k] := block[k]; }
  }

  // The scalar loop from group n on; it is also the tail of the vector kernel.
  method ScalarFrom(words: seq<bv32>, out: array<bv16>, invert: bool, from: nat)
    requires |words| % 3 == 0 && 3 * from <= |words| && |words| / 3 * 8 <= out.Length
    requires out[..8 * from] == Signed(invert, Samples(words, from))
    modifies out
    ensures out[..|words| / 3 * 8] == Signed(invert, Samples(words, |words| / 3))
    ensures out[|words| / 3 * 8..] == old(out[|words| / 3 * 8..])
  {
    hide Group, ScalarGroup, Signed, Samples;
    for n := from to |words| / 3
      invariant out[..8 * n] == Signed(invert, Samples(words, n))
      invariant out[|words| / 3 * 8..] == old(out[|words| / 3 * 8..])
    {
      var g := ScalarGroup(words[3 * n], words[3 * n + 1], words[3 * n + 2]);
      ScalarIsGroup(words[3 * n], words[3 * n + 1], words[3 * n + 2]);
      SignedStep(invert, words, n);
      ghost var rest := out[8 * n + 8..];
      Store(out, 8 * n, Signed(invert, g));
      SameTail(rest, out[8 * n + 8..], |words| / 3 * 8 - (8 * n + 8));
      assert out[8 * n + 8..][|words| / 3 * 8 - (8 * n + 8)..] == out[|words| / 3 * 8..];
    }
  }

  lemma SameTail(a: seq<bv16>, b: seq<bv16>, k: nat)
    requires a == b && k <= |a|
    ensures a[k..] == b[k..]
  {
  }

  /** The scalar kernel, plain or negating every second sample. */
  method UnpackScalar(words: seq<bv32>, out: array<bv16>, invert: bool)
    requires |words| % 3 == 0 && |words| / 3 * 8 <= out.Length
    modifies out
    ensures out[..|words| / 3 * 8] == Signed(invert, Samples(words, |words| / 3))
    ensures out[|words| / 3 * 8..] == old(out[|words| / 3 * 8..])
  {
    ScalarFrom(words, out, invert, 0);
  }

  // ---------- the vector kernel ----------

  datatype Quad = Quad(l0: Halves, l1: Halves, l2: Halves, l3: Halves)

  // De-interleaving load: lane l of register r is word 3 * l + r.
  function Load3(words: seq<bv32>, at: nat, r: nat): Quad
    requires r < 3 && at + 12 <= |words|
  {
    Quad(Split(words[at + r]), Split(words[at + 3 + r]), Split(words[at + 6 + r]), Split(words[at + 9 + r]))
  }

  function Shl4(h: Halves): Halves { Halves(h.lo << 4, h.hi << 4) }

  // Shift right and insert: the top n bits of h stay.
  function Sri(h: Halves, r: Halves, n: bv16): Halves
    requires n <= 16
  {
    Halves((h.lo & !(0xFFFF >> n)) | (r.lo >> n), (h.hi & !(0xFFFF >> n)) | (r.hi >> n))
  }

  function Mask(h: Halves): Halves { Halves(h.lo & 0xFFF0, h.hi & 0xFFF0) }

  // Multiplication by the lanes { 1, -1 }, or no multiplication in the plain kernel.
  function Negate(invert: bool, h: Halves): Halves {
    if invert then Halves(h.lo * 1, h.hi * 0xFFFF) else h
  }

  function Out3(a: Halves, b: Halves, c: Halves): Halves { Mask(Sri(Sri(a, b, 4), c, 8)) }

  // The eight 16-bit values lane l contributes to the interleaving store.
  function Lane(invert: bool, a: Halves, b: Halves, c: Halves): (r: seq<bv16>)
    ensures |r| == 8
  {
    var o0, o1, o2, o3 := Negate(invert, Shl4(a)), Negate(invert, Shl4(b)), Negate(invert, Shl4(c)),
                          Negate(invert, Out3(a, b, c));
    [o0.lo, o0.hi, o1.lo, o1.hi, o2.lo, o2.hi, o3.lo, o3.hi]
  }

  function Vector(invert: bool, in0: Quad, in1: Quad, in2: Quad): (r: seq<bv16>)
    ensures |r| == 32
  {
    Lane(invert, in0.l0, in1.l0, in2.l0) + Lane(invert, in0.l1, in1.l1, in2.l1) +
    Lane(invert, in0.l2, in1.l2, in2.l2) + Lane(invert, in0.l3, in1.l3, in2.l3)
  }

  lemma InsertsTops(a: Halves, b: Halves, c: Halves)
    ensures Out3(a, b, c) == Halves(Tops(a.lo, b.lo, c.lo), Tops(a.hi, b.hi, c.hi))
  {
  }

  lemma NegateLanes(h: Halves)
    ensures Negate(true, h) == Halves(h.lo, Neg16(h.hi))
  {
  }

  lemma ShiftLow(h: Halves)
    ensures Shl4(h) == Halves(Low(h.lo), Low(h.hi))
  {
  }

  lemma LaneIsGroup(invert: bool, first: bv32, second: bv32, third: bv32)
    ensures Lane(invert, Split(first), Split(second), Split(third)) == Signed(invert, Group(first, second, third))
  {
    hide Split, Low, Tops, Out3, Shl4, Neg16;
    var a, b, c := Split(first), Split(second), Split(third);
    InsertsTops(a, b, c);
    ShiftLow(a);
    ShiftLow(b);
    ShiftLow(c);
    NegateLanes(Shl4(a));
    NegateLanes(Shl4(b));
    NegateLanes(Shl4(c));
    NegateLanes(Out3(a, b, c));
    assert !invert ==> forall h :: Negate(invert, h) == h;
    hide Negate;
  }

  lemma VectorIsFour(invert: bool, words: seq<bv32>, n: nat)
    requires 3 * n + 12 <= |words|
    ensures Signed(invert, Samples(words, n)) +
            Vector(invert, Load3(words, 3 * n, 0), Load3(words, 3 * n, 1), Load3(words, 3 * n, 2))
            == Signed(invert, Samples(words, n + 4))
  {
    hide Split, Lane, Group, Signed, Samples;
    LaneIsGroup(invert, words[3 * n], words[3 * n + 1], words[3 * n + 2]);
    LaneIsGroup(invert, words[3 * n + 3], words[3 * n + 4], words[3 * n + 5]);
    LaneIsGroup(invert, words[3 * n + 6], words[3 * n + 7], words[3 * n + 8]);
    LaneIsGroup(invert, words[3 * n + 9], words[3 * n + 10], words[3 * n + 11]);
    SignedStep(invert, words, n);
    SignedStep(invert, words, n + 1);
    SignedStep(invert, words, n + 2);
    SignedStep(invert, words, n + 3);
  }

  /** The vector kernel takes twelve words at a time and leaves the rest to the scalar
      tail; for every length it stores what the scalar kernel stores. */
  method UnpackNeon(words: seq<bv32>, out: array<bv16>, invert: bool)
    requires |words| % 3 == 0 && |words| / 3 * 8 <= out.Length
    modifies out
    ensures out[..|words| / 3 * 8] == Signed(invert, Samples(words, |words| / 3))
    ensures out[|words| / 3 * 8..] == old(out[|words| / 3 * 8..])
  {
    hide Vector, Signed, Samples;
    var n := 0;
    NothingUnpacked(words, invert);
    while 3 * n + 12 <= |words|
      invariant 0 <= 3 * n <= |words|
      invariant out[..8 * n] == Signed(invert, Samples(words, n))
      invariant out[|words| / 3 * 8..] == old(out[|words| / 3 * 8..])
    {
      var in0, in1, in2 := Load3(words, 3 * n, 0), Load3(words, 3 * n, 1), Load3(words, 3 * n, 2);
      VectorIsFour(invert, words, n);
      ghost var rest := out[8 * n + 32..];
      Store(out, 8 * n, Vector(invert, in0, in1, in2));
      SameTail(rest, out[8 * n + 32..], |words| / 3 * 8 - (8 * n + 32));
      assert out[8 * n + 32..][|words| / 3 * 8 - (8 * n + 32)..] == out[|words| / 3 * 8..];
      n := n + 4;
    }
    ScalarFrom(words, out, invert, n);
  }

  lemma NothingUnpacked(words: seq<bv32>, invert: bool)
    ensures Signed(invert, Samples(words, 0)) == []
  {
  }
}
