/** Checking half-band taps and turning them into a quantised filter. */
module HalfbandTaps {
  import opened Wrappers
  import opened Fixed16
  import opened Halfband
  import HalfbandRange
  import RealMath

  function AbsR(x: real): real { RealMath.Abs(x) }

  // C's conversion to an integer drops the fraction.
  function Truncate(x: real): int { if x >= 0.0 then x.Floor else -((-x).Floor) }

  // Odd length, nonzero centre, zeros at even distances from it, symmetric, centre largest.
  predicate ValidTaps(taps: seq<real>) {
    && |taps| % 2 == 1
    && taps[(|taps| - 1) / 2] != 0.0
    && (forall i :: 0 <= i < |taps| / 2 && (|taps| / 2 - i) % 2 == 0 ==> taps[i] == 0.0)
    && (forall i :: 0 <= i < |taps| / 2 ==> taps[i] == taps[|taps| - i - 1])
    && (forall i :: 0 <= i < |taps| / 2 ==> AbsR(taps[i]) <= AbsR(taps[(|taps| - 1) / 2]))
  }

  method TapsValid(taps: Option<seq<real>>) returns (ok: bool)
    ensures ok <==> taps.Some? && ValidTaps(taps.value)
  {
    if taps.None? { return false; }
    var t := taps.value;
    if |t| % 2 != 1 { return false; }
    var centre := t[(|t| - 1) / 2];
    if centre == 0.0 { return false; }
    for i := 0 to |t| / 2
      invariant forall j :: 0 <= j < i && (|t| / 2 - j) % 2 == 0 ==> t[j] == 0.0
      invariant forall j :: 0 <= j < i ==> t[j] == t[|t| - j - 1]
      invariant forall j :: 0 <= j < i ==> AbsR(t[j]) <= AbsR(centre)
    {
      if (|t| / 2 - i) % 2 == 0 && t[i] != 0.0 { return false; }
      if t[i] != t[|t| - i - 1] { return false; }
      if AbsR(t[i]) > AbsR(centre) { return false; }
    }
    return true;
  }

  // ---------- building the filter ----------

  // The two assertions in the trimming step.
  predicate TrimAssertions(taps: seq<real>)
    requires |taps| > 0
  {
    if |taps| % 4 == 1 then taps[0] == 0.0 else taps[0] != 0.0
  }

  /** Taps that pass the check can still trip an assertion: a single tap, or a zero
      outermost tap where the layout puts a nonzero one. Nothing else can. */
  lemma TrimAssertionsIff(taps: seq<real>)
    requires ValidTaps(taps)
    ensures TrimAssertions(taps) <==> |taps| > 1 && (|taps| % 4 == 3 ==> taps[0] != 0.0)
  {
    if |taps| % 4 == 1 && |taps| > 1 {
      assert (|taps| / 2 - 0) % 2 == 0;
    }
  }

  lemma ValidButTripping()
    ensures ValidTaps([1.0]) && !TrimAssertions([1.0])
    ensures ValidTaps([0.0, 1.0, 0.0]) && !TrimAssertions([0.0, 1.0, 0.0])
  {
  }

  function HalfSum(taps: seq<real>, n: nat): real
    requires n <= |taps|
  {
    if n == 0 then 0.0 else HalfSum(taps, n - 1) + AbsR(taps[n - 1]) * 2.0
  }

  function FullSum(taps: seq<real>, n: nat): real
    requires n <= |taps|
  {
    if n == 0 then 0.0 else FullSum(taps, n - 1) + AbsR(taps[n - 1])
  }

  // The scaling sum as computed: outer magnitudes doubled, the centre with its sign.
  function ScaleSum(taps: seq<real>): real
    requires |taps| % 2 == 1
  {
    HalfSum(taps, |taps| / 2) + taps[(|taps| - 1) / 2]
  }

  lemma {:induction false} MirrorSum(taps: seq<real>, k: nat)
    requires ValidTaps(taps) && k <= |taps| / 2
    ensures FullSum(taps, |taps| / 2 + 1 + k)
            == FullSum(taps, |taps| / 2 + 1) + (FullSum(taps, |taps| / 2) - FullSum(taps, |taps| / 2 - k))
  {
    if k > 0 {
      MirrorSum(taps, k - 1);
      var h := |taps| / 2;
      assert taps[h - k] == taps[|taps| - (h - k) - 1];
    }
  }

  lemma {:induction false} HalfIsTwice(taps: seq<real>, n: nat)
    requires n <= |taps|
    ensures HalfSum(taps, n) == 2.0 * FullSum(taps, n)
  {
    if n > 0 { HalfIsTwice(taps, n - 1); }
  }

  /** The scaling sum is the sum of all tap magnitudes exactly when the centre tap is positive. */
  lemma ScaleSumIff(taps: seq<real>)
    requires ValidTaps(taps)
    ensures ScaleSum(taps) == FullSum(taps, |taps|) <==> taps[(|taps| - 1) / 2] > 0.0
  {
    hide ValidTaps;
    assert |taps| % 2 == 1 && taps[|taps| / 2] != 0.0 && |taps| == |taps| / 2 + 1 + |taps| / 2 by { OddWithCentre(taps); }
    MirrorSum(taps, |taps| / 2);
    HalfIsTwice(taps, |taps| / 2);
  }

  lemma OddWithCentre(taps: seq<real>)
    requires ValidTaps(taps)
    ensures |taps| % 2 == 1 && taps[|taps| / 2] != 0.0 && |taps| == |taps| / 2 + 1 + |taps| / 2
  {
  }

  // A negative centre passes the check although the scale then divides by zero here.
  lemma NegativeCentreWitness()
    ensures ValidTaps([0.5, -1.0, 0.5]) && ScaleSum([0.5, -1.0, 0.5]) == 0.0
  {
    var t := [0.5, -1.0, 0.5];
    assert HalfSum(t, 0) == 0.0;
    assert HalfSum(t, 1) == 1.0;
  }

  function Quantised(tap: real, scale: real): int { Truncate(tap * scale + 0.5) }

  // The taps after trimming a zero from each end where the layout has one.
  function Trimmed(taps: seq<real>): seq<real>
    requires |taps| > 0 && |taps| % 2 == 1
  {
    if |taps| % 4 == 1 && |taps| > 1 then taps[1..|taps| - 1] else taps
  }

  lemma {:induction false} TapBelowSum(taps: seq<real>, j: nat, n: nat)
    requires j < n <= |taps|
    ensures 0.0 <= AbsR(taps[j]) <= FullSum(taps, n)
  {
    if j < n - 1 { TapBelowSum(taps, j, n - 1); } else { SumNotNegative(taps, n - 1); }
  }

  lemma {:induction false} SumNotNegative(taps: seq<real>, n: nat)
    requires n <= |taps|
    ensures FullSum(taps, n) >= 0.0
  {
    if n > 0 { SumNotNegative(taps, n - 1); }
  }

  // What the conversion of every trimmed tap needs: a scale, and a result of 16 bits.
  predicate Convertible(taps: seq<real>) {
    && ValidTaps(taps) && TrimAssertions(taps) && ScaleSum(taps) != 0.0
    && forall j :: 0 <= j < |Trimmed(taps)| ==>
         -32768 <= Quantised(Trimmed(taps)[j], 32767.0 / ScaleSum(taps)) <= 32767
  }

  function QuantisedTaps(taps: seq<real>): (r: seq<int16>)
    requires Convertible(taps)
    ensures |r| == |Trimmed(taps)|
  {
    seq(|Trimmed(taps)|, j requires 0 <= j < |Trimmed(taps)| => Quantised(Trimmed(taps)[j], 32767.0 / ScaleSum(taps)))
  }

  lemma QuantisedZero(scale: real)
    ensures Quantised(0.0, scale) == 0
  {
    assert 0.0 * scale == 0.0;
  }

  lemma RoundedInRange(x: real)
    requires -32767.0 <= x <= 32767.0
    ensures -32767 <= Truncate(x + 0.5) <= 32767
  {
  }

  lemma ScaledInRange(tap: real, sum: real, s: real)
    requires sum > 0.0 && -sum <= tap <= sum && s > 0.0 && sum * s == 32767.0
    ensures -32767 <= Quantised(tap, s) <= 32767
  {
    hide Truncate;
    RealMath.MulLessEq(tap, sum, s);
    RealMath.MulLessEq(-sum, tap, s);
    assert (-sum) * s == -(sum * s);
    RoundedInRange(tap * s);
  }

  lemma QuantisedInRange(tap: real, sum: real)
    requires sum > 0.0 && AbsR(tap) <= sum
    ensures -32767 <= Quantised(tap, 32767.0 / sum) <= 32767
  {
    hide Quantised;
    ScaledInRange(tap, sum, 32767.0 / sum);
  }

  lemma ScaleFacts(taps: seq<real>)
    requires ValidTaps(taps) && TrimAssertions(taps) && taps[(|taps| - 1) / 2] > 0.0
    ensures ScaleSum(taps) == FullSum(taps, |taps|) > 0.0
    ensures |taps| % 2 == 1 && |taps| > 1
  {
    hide ValidTaps, ScaleSum;
    OddWithCentre(taps);
    TrimAssertionsIff(taps);
    ScaleSumIff(taps);
    TapBelowSum(taps, |taps| / 2, |taps|);
  }

  lemma SameParity(h: nat, m: nat)
    requires m % 2 == h % 2
    ensures ((2 * h + 1) / 2 - m) % 2 == 0
  {
  }

  // Taps at an even distance from the centre are zero, on either side.
  lemma ZeroAt(taps: seq<real>, h: nat, k: nat)
    requires ValidTaps(taps) && |taps| == 2 * h + 1 && k < |taps| && k != h
    requires k % 2 == h % 2
    ensures taps[k] == 0.0
  {
    var m := if k < h then k else 2 * h - k;
    SameParity(h, m);
    assert taps[m] == taps[|taps| - m - 1];
  }

  lemma TrimmedIndex(len: nat, trimmed: nat, j: nat)
    requires len % 2 == 1 && len > 1 && trimmed == if len % 4 == 1 then len - 2 else len
    requires j % 2 == 1 && j != (trimmed - 1) / 2
    ensures len % 4 == 1 ==> (j + 1) % 2 == (len / 2) % 2 && j + 1 != len / 2
    ensures len % 4 != 1 ==> j % 2 == (len / 2) % 2 && j != len / 2
  {
    var q, k := len / 4, j / 2;
    assert j == 2 * k + 1 && (j + 1) / 2 == k + 1;
    if len % 4 == 1 {
      assert len / 2 == 2 * q && (trimmed - 1) / 2 == 2 * q - 1;
    } else {
      assert len / 2 == 2 * q + 1 && (trimmed - 1) / 2 == 2 * q + 1;
    }
  }

  // After trimming, zeros sit at the odd positions other than the centre.
  lemma ZerosKept(taps: seq<real>, j: nat)
    requires ValidTaps(taps) && |taps| > 1 && j < |Trimmed(taps)| && j % 2 == 1 && j != (|Trimmed(taps)| - 1) / 2
    ensures Trimmed(taps)[j] == 0.0
  {
    hide ValidTaps;
    OddWithCentre(taps);
    TrimmedIndex(|taps|, |Trimmed(taps)|, j);
    if |taps| % 4 == 1 {
      ZeroAt(taps, |taps| / 2, j + 1);
    } else {
      ZeroAt(taps, |taps| / 2, j);
    }
  }

  lemma TrimmedTap(taps: seq<real>, j: nat)
    requires |taps| % 2 == 1 && |taps| > 1 && j < |Trimmed(taps)|
    ensures AbsR(Trimmed(taps)[j]) <= FullSum(taps, |taps|)
  {
    TapBelowSum(taps, if |taps| % 4 == 1 then j + 1 else j, |taps|);
  }

  method SumMagnitudes(taps: seq<real>) returns (sum: real)
    requires |taps| % 2 == 1
    ensures sum == ScaleSum(taps)
  {
    hide RealMath.Abs;
    sum := 0.0;
    for i := 0 to |taps| / 2
      invariant sum == HalfSum(taps, i)
    {
      sum := sum + AbsR(taps[i]) * 2.0;
    }
    sum := sum + taps[(|taps| - 1) / 2];
  }

  /** Accepted taps that trip no assertion and have a positive centre can be converted. */
  lemma PositiveCentreConverts(taps: seq<real>)
    requires ValidTaps(taps) && TrimAssertions(taps) && taps[(|taps| - 1) / 2] > 0.0
    ensures Convertible(taps)
  {
    hide Quantised, FullSum, RealMath.Abs, ValidTaps, TrimAssertions, ScaleSum, Trimmed;
    ScaleFacts(taps);
    forall j | 0 <= j < |Trimmed(taps)|
      ensures -32768 <= Quantised(Trimmed(taps)[j], 32767.0 / ScaleSum(taps)) <= 32767
    {
      TrimmedTap(taps, j);
      QuantisedInRange(Trimmed(taps)[j], ScaleSum(taps));
    }
  }

  // ---------- negative scaling sums ----------

  lemma {:induction false} HalfSumNotNegative(taps: seq<real>, n: nat)
    requires n <= |taps|
    ensures HalfSum(taps, n) >= 0.0
  {
    if n > 0 { HalfSumNotNegative(taps, n - 1); }
  }

  lemma {:induction false} BelowHalfSum(taps: seq<real>, j: nat, n: nat)
    requires j < n <= |taps|
    ensures AbsR(taps[j]) <= HalfSum(taps, n)
  {
    if j < n - 1 { BelowHalfSum(taps, j, n - 1); } else { HalfSumNotNegative(taps, n - 1); }
  }

  lemma OuterBelow(taps: seq<real>, j: nat)
    requires ValidTaps(taps) && j < |taps| && j != |taps| / 2
    ensures AbsR(taps[j]) <= HalfSum(taps, |taps| / 2)
  {
    if j < |taps| / 2 {
      BelowHalfSum(taps, j, |taps| / 2);
    } else {
      assert taps[|taps| - 1 - j] == taps[|taps| - (|taps| - 1 - j) - 1];
      BelowHalfSum(taps, |taps| - 1 - j, |taps| / 2);
    }
  }

  // Trimmed tap j is tap j + 1 or tap j.
  function Untrimmed(taps: seq<real>, j: nat): nat { if |taps| % 4 == 1 then j + 1 else j }

  lemma TrimmedIs(taps: seq<real>, j: nat)
    requires |taps| % 2 == 1 && |taps| > 1 && j < |Trimmed(taps)|
    ensures Untrimmed(taps, j) < |taps| && Trimmed(taps)[j] == taps[Untrimmed(taps, j)]
    ensures j == (|Trimmed(taps)| - 1) / 2 <==> Untrimmed(taps, j) == |taps| / 2
  {
    TrimmedCentre(|taps|, |Trimmed(taps)|);
  }

  lemma TrimmedCentre(len: nat, trimmed: nat)
    requires len % 2 == 1 && len > 1 && trimmed == if len % 4 == 1 then len - 2 else len
    ensures (trimmed - 1) / 2 == if len % 4 == 1 then len / 2 - 1 else len / 2
  {
    var q := len / 4;
    if len % 4 == 1 {
      assert len / 2 == 2 * q;
    } else {
      assert len / 2 == 2 * q + 1;
    }
  }

  lemma QuantisedIs(tap: real, s: real, x: real)
    requires tap * s == x
    ensures Quantised(tap, s) == Truncate(x + 0.5)
  {
  }

  // Rounding 32767 plus something, and something near zero.
  lemma TruncateNear(x: real)
    requires x >= 0.0
    ensures -32768 <= Truncate(x + 32767.0 + 0.5) <= 32767 <==> x < 0.5
    ensures x < 0.5 ==> Truncate(x + 32767.0 + 0.5) == 32767
    ensures x < 0.5 ==> Truncate(x + 0.5) == Truncate(-x + 0.5) == 0
  {
  }

  // With r = 32767 / d, the condition that y = h * r is below one half.
  lemma BelowHalf(h: real, d: real, r: real, y: real)
    requires h >= 0.0 && d > 0.0 && r * d == 32767.0 && h * r == y
    ensures r > 0.0 && y >= 0.0
    ensures y < 0.5 <==> 65534.0 * h < d
  {
    RealMath.PositiveFactor(r, d);
    RealMath.MulLessEq(0.0, h, r);
    CompareScaled(h, d, r, y);
  }

  lemma CompareScaled(h: real, d: real, r: real, p: real)
    requires r > 0.0 && d * r == 32767.0 && h * r == p
    ensures p < 0.5 <==> 65534.0 * h < d
  {
    assert (65534.0 * h) * r == 65534.0 * p;
    if 65534.0 * h < d {
      RealMath.MulLess(65534.0 * h, d, r);
      assert 65534.0 * p < 32767.0;
    } else {
      RealMath.MulLessEq(d, 65534.0 * h, r);
      assert 65534.0 * p >= 32767.0;
    }
  }

  // The scaled centre exceeds 32767 by h times the scale.
  lemma FlippedCentre(h: real, d: real, s: real)
    requires h >= 0.0 && d > 0.0 && s * -d == 32767.0
    ensures -32768 <= Quantised(-(h + d), s) <= 32767 <==> 65534.0 * h < d
    ensures 65534.0 * h < d ==> Quantised(-(h + d), s) == 32767
  {
    hide Quantised, Truncate;
    var y := h * -s;
    BelowHalf(h, d, -s, y);
    assert -(h + d) * s == (h + d) * -s;
    Distribute(h, d, -s);
    QuantisedIs(-(h + d), s, y + 32767.0);
    TruncateNear(y);
  }

  lemma QuantisedNear(t: real, s: real, x: real)
    requires t * s == x || t * s == -x
    requires 0.0 <= x < 0.5
    ensures Quantised(t, s) == 0
  {
    hide Quantised, Truncate;
    TruncateNear(x);
    if t * s == x { QuantisedIs(t, s, x); } else { QuantisedIs(t, s, -x); }
  }

  // An outer tap is at most h.
  lemma FlippedOuter(t: real, h: real, d: real, s: real)
    requires AbsR(t) <= h && d > 0.0 && s * -d == 32767.0 && 65534.0 * h < d
    ensures Quantised(t, s) == 0
  {
    hide Quantised, RealMath.Abs;
    NotNegative(t);
    var x, y := AbsR(t) * -s, h * -s;
    BelowHalf(h, d, -s, y);
    SmallProduct(AbsR(t), h, -s, x, y);
    PlusOrMinus(t, s);
    QuantisedNear(t, s, x);
  }

  lemma PlusOrMinus(t: real, s: real)
    ensures t * s == AbsR(t) * -s || t * s == -(AbsR(t) * -s)
  {
    if t < 0.0 {
      assert AbsR(t) * -s == (-t) * -s;
    } else {
      assert AbsR(t) * -s == t * -s;
    }
  }

  lemma SmallProduct(a: real, h: real, r: real, x: real, y: real)
    requires 0.0 <= a <= h && r > 0.0 && a * r == x && h * r == y && y < 0.5
    ensures 0.0 <= x < 0.5
  {
    RealMath.MulLessEq(a, h, r);
    RealMath.MulLessEq(0.0, a, r);
  }

  /** A negative scaling sum takes a negative centre. Its filter can be converted exactly when
      the centre outweighs all other taps together more than 65535 times, and is then a pure
      delay: every outer tap quantises to 0, and the centre, with its sign lost, to 32767. */
  lemma NegativeSumIff(taps: seq<real>)
    requires ValidTaps(taps) && TrimAssertions(taps) && ScaleSum(taps) < 0.0
    ensures Convertible(taps) <==> 65535.0 * HalfSum(taps, |taps| / 2) < -taps[|taps| / 2]
    ensures Convertible(taps) ==>
              forall j :: 0 <= j < |Trimmed(taps)| ==>
                QuantisedTaps(taps)[j] == if j == (|Trimmed(taps)| - 1) / 2 then 32767 else 0
  {
    hide Quantised, ValidTaps, Trimmed, TrimAssertions, HalfSum, AbsR;
    OddWithCentre(taps);
    TrimAssertionsIff(taps);
    TrimmedLength(taps);
    HalfSumNotNegative(taps, |taps| / 2);
    var s, h, d := 32767.0 / ScaleSum(taps), HalfSum(taps, |taps| / 2), -ScaleSum(taps);
    assert s * -d == 32767.0;
    FlippedCentre(h, d, s);
    var c := (|Trimmed(taps)| - 1) / 2;
    TrimmedIs(taps, c);
    assert taps[|taps| / 2] == -(h + d);
    if 65534.0 * h < d {
      forall j | 0 <= j < |Trimmed(taps)|
        ensures Quantised(Trimmed(taps)[j], s) == if j == c then 32767 else 0
      {
        TrimmedIs(taps, j);
        if j != c {
          OuterBelow(taps, Untrimmed(taps, j));
          FlippedOuter(Trimmed(taps)[j], h, d, s);
        }
      }
    }
  }

  lemma FlippedWitness()
    ensures Convertible([0.0, 0.0, -1.0, 0.0, 0.0])
    ensures QuantisedTaps([0.0, 0.0, -1.0, 0.0, 0.0]) == [0, 32767, 0]
  {
    var t := [0.0, 0.0, -1.0, 0.0, 0.0];
    assert HalfSum(t, 0) == HalfSum(t, 1) == HalfSum(t, 2) == 0.0;
    assert ScaleSum(t) == -1.0;
    assert Trimmed(t) == [0.0, -1.0, 0.0];
    assert 32767.0 / ScaleSum(t) == -32767.0;
  }

  // Quantises the taps and pads them with zeros to the next multiple of four.
  method QuantiseTaps(t: seq<real>, sum: real) returns (q: seq<int16>)
    requires sum != 0.0 && forall j :: 0 <= j < |t| ==> -32768 <= Quantised(t[j], 32767.0 / sum) <= 32767
    ensures |q| == |t| + (4 - |t| % 4)
    ensures forall j :: 0 <= j < |q| ==> q[j] as int == if j < |t| then Quantised(t[j], 32767.0 / sum) else 0
  {
    hide Quantised;
    var padded := |t| + (4 - |t| % 4);
    var scale := 32767.0 / sum;
    var taps := new int16[padded];
    for i := 0 to padded
      invariant forall j :: 0 <= j < i ==> taps[j] as int == if j < |t| then Quantised(t[j], scale) else 0
    {
      if i < |t| {
        taps[i] := Quantised(t[i], scale);
      } else {
        taps[i] := 0;
      }
    }
    q := taps[..];
  }

  lemma ConvertibleFacts(taps: seq<real>)
    requires Convertible(taps)
    ensures ValidTaps(taps) && ScaleSum(taps) != 0.0 && |taps| % 2 == 1 && |taps| > 1 && |Trimmed(taps)| % 4 == 3
    ensures forall j :: 0 <= j < |Trimmed(taps)| ==>
              -32768 <= Quantised(Trimmed(taps)[j], 32767.0 / ScaleSum(taps)) <= 32767
  {
    hide Quantised, ScaleSum, Trimmed;
    TrimAssertionsIff(taps);
    TrimmedLength(taps);
  }

  /** Builds the quantised filter from all taps whose conversion C defines: trimmed, scaled,
      truncated and padded to the shape the kernels rely on. */
  method Create(taps: seq<real>) returns (f: Filter)
    requires Convertible(taps)
    ensures HalfbandShape(f) && f.ntaps == |Trimmed(taps)| && f.taps == QuantisedTaps(taps) + [0]
  {
    hide Quantised, RealMath.Abs, Convertible, ValidTaps, ScaleSum, HalfbandShape;
    ConvertibleFacts(taps);
    var sum := SumMagnitudes(taps);
    var t := if |taps| % 4 == 1 then taps[1..|taps| - 1] else taps;
    assert t == Trimmed(taps);
    hide Trimmed;
    var q := QuantiseTaps(t, sum);
    f := Filter(|t|, q);
    QuantisedShape(taps, f);
  }

  lemma QuantisedShape(taps: seq<real>, f: Filter)
    requires Convertible(taps)
    requires f.ntaps == |Trimmed(taps)| && f.taps == QuantisedTaps(taps) + [0]
    ensures HalfbandShape(f)
  {
    hide Convertible, ValidTaps, Quantised, Trimmed, ScaleSum;
    ConvertibleFacts(taps);
    forall j | 0 <= j < f.ntaps && j % 2 == 1 && j != Centre(f) ensures f.taps[j] == 0 {
      ZerosKept(taps, j);
      QuantisedZero(32767.0 / ScaleSum(taps));
    }
  }

  /** Whether the filter that creation builds can overflow, read off its input. */
  lemma CreatedOverflowFreeIff(taps: seq<real>)
    requires Convertible(taps)
    ensures HalfbandRange.NeverOverflows(QuantisedTaps(taps) + [0]) <==>
            HalfbandRange.Highest(QuantisedTaps(taps), |Trimmed(taps)|) < 0x4000_0000 &&
            HalfbandRange.Lowest(QuantisedTaps(taps), |Trimmed(taps)|) >= -0x4000_0000
  {
    hide Convertible, QuantisedTaps, Trimmed, HalfbandRange.NeverOverflows, HalfbandRange.Highest, HalfbandRange.Lowest;
    var q := QuantisedTaps(taps);
    HalfbandRange.PaddedExtremes(q, |q|);
    HalfbandRange.OverflowFreeIff(q + [0]);
  }

  // ---------- how large a created filter can be ----------

  lemma RoundedMagnitude(x: real)
    ensures Abs(Truncate(x + 0.5)) as real <= RealMath.Abs(x) + 0.5
  {
  }

  lemma ScaledAbs(tap: real, s: real)
    requires s > 0.0
    ensures RealMath.Abs(tap * s) == AbsR(tap) * s
  {
    if tap < 0.0 {
      RealMath.MulLess(tap, 0.0, s);
      assert (-tap) * s == -(tap * s);
    } else {
      RealMath.MulLessEq(0.0, tap, s);
    }
  }

  lemma QuantisedMagnitude(tap: real, s: real)
    requires s > 0.0
    ensures Abs(Quantised(tap, s)) as real <= AbsR(tap) * s + 0.5
  {
    hide Truncate, Halfband.Abs, RealMath.Abs;
    RoundedMagnitude(tap * s);
    ScaledAbs(tap, s);
  }

  lemma Distribute(a: real, b: real, s: real)
    ensures (a + b) * s == a * s + b * s
  {
  }

  lemma {:induction false} MagnitudesBelow(t: seq<real>, q: seq<int16>, s: real, n: nat)
    requires s > 0.0 && n <= |t| <= |q| && forall j :: 0 <= j < |t| ==> q[j] == Quantised(t[j], s)
    ensures AbsSum(q, n) as real <= FullSum(t, n) * s + 0.5 * n as real
  {
    hide Quantised, RealMath.Abs, Halfband.Abs;
    if n > 0 {
      MagnitudesBelow(t, q, s, n - 1);
      QuantisedMagnitude(t[n - 1], s);
      Distribute(FullSum(t, n - 1), AbsR(t[n - 1]), s);
    }
  }

  lemma {:induction false} InnerSum(taps: seq<real>, n: nat)
    requires |taps| > 1 && n <= |taps| - 2
    ensures FullSum(taps, n + 1) == AbsR(taps[0]) + FullSum(taps[1..|taps| - 1], n)
  {
    hide RealMath.Abs;
    if n > 0 {
      InnerSum(taps, n - 1);
    } else {
      assert FullSum(taps, 0) == 0.0;
    }
  }

  lemma TrimmedSum(taps: seq<real>)
    requires |taps| % 2 == 1
    ensures FullSum(Trimmed(taps), |Trimmed(taps)|) <= FullSum(taps, |taps|)
  {
    hide RealMath.Abs;
    if |taps| % 4 == 1 && |taps| > 1 {
      InnerSum(taps, |taps| - 2);
      NotNegative(taps[0]);
      NotNegative(taps[|taps| - 1]);
    }
  }

  lemma NotNegative(x: real)
    ensures AbsR(x) >= 0.0
  {
  }

  /** With a positive centre the magnitudes sum to at most 32767 plus half of one for every
      tap, so up to 65536 taps the scalar kernel's sums fit. */
  lemma CreatedMagnitudes(taps: seq<real>, f: Filter)
    requires Convertible(taps) && taps[(|taps| - 1) / 2] > 0.0
    requires f.ntaps == |Trimmed(taps)| && f.taps == QuantisedTaps(taps) + [0]
    ensures 2 * AbsSum(f.taps, f.ntaps) <= 2 * 32767 + f.ntaps
  {
    hide Quantised, FullSum, RealMath.Abs, ValidTaps, TrimAssertions, ScaleSum, Trimmed, AbsSum, Convertible;
    ConvertibleFacts(taps);
    ScaleSumIff(taps);
    TapBelowSum(taps, |taps| / 2, |taps|);
    PositiveAbs(taps[|taps| / 2]);
    ScaledMagnitudes(taps, f, ScaleSum(taps), 32767.0 / ScaleSum(taps));
  }

  lemma PositiveAbs(x: real)
    ensures x > 0.0 ==> AbsR(x) > 0.0
  {
  }

  lemma ScaledMagnitudes(taps: seq<real>, f: Filter, sum: real, s: real)
    requires |taps| % 2 == 1 && s > 0.0 && sum * s == 32767.0 && sum == FullSum(taps, |taps|)
    requires f.ntaps == |Trimmed(taps)| <= |f.taps|
    requires forall j :: 0 <= j < f.ntaps ==> f.taps[j] == Quantised(Trimmed(taps)[j], s)
    ensures 2 * AbsSum(f.taps, f.ntaps) <= 2 * 32767 + f.ntaps
  {
    hide Quantised, FullSum, Trimmed, AbsSum;
    MagnitudesBelow(Trimmed(taps), f.taps, s, f.ntaps);
    TrimmedSum(taps);
    RealMath.MulLessEq(FullSum(Trimmed(taps), f.ntaps), sum, s);
  }

  lemma TrimmedLength(taps: seq<real>)
    requires |taps| > 1 && |taps| % 2 == 1
    ensures |Trimmed(taps)| % 4 == 3
  {
  }

  // ---------- the default taps ----------

  // Tap k <= 19 of the default filter; the other half mirrors it.
  function HalfTap(k: nat): real {
    if k == 0 then -0.00105091
    else if k == 2 then 0.00250767
    else if k == 4 then -0.0048923
    else if k == 6 then 0.00855213
    else if k == 8 then -0.0139827
    else if k == 10 then 0.0220117
    else if k == 12 then -0.0343224
    else if k == 14 then 0.0552597
    else if k == 16 then -0.100878
    else if k == 18 then 0.316537
    else if k == 19 then 0.5 else 0.0
  }

  const DEFAULT_TAPS: seq<real> := seq(39, j requires 0 <= j < 39 => HalfTap(if j <= 19 then j else 38 - j))

  function HalfQuantised(k: nat): int16 {
    if k == 0 then -20
    else if k == 2 then 51
    else if k == 4 then -98
    else if k == 6 then 173
    else if k == 8 then -282
    else if k == 10 then 445
    else if k == 12 then -693
    else if k == 14 then 1118
    else if k == 16 then -2039
    else if k == 18 then 6402
    else if k == 19 then 10113 else 0
  }

  const DEFAULT_QUANTISED: seq<int16> :=
    seq(39, j requires 0 <= j < 39 => HalfQuantised(if j <= 19 then j else 38 - j))

  lemma HalfSumStep(k: nat)
    requires k + 2 <= 20 && k % 2 == 0
    ensures HalfSum(DEFAULT_TAPS, k + 1) == HalfSum(DEFAULT_TAPS, k) + AbsR(HalfTap(k)) * 2.0
    ensures k < 18 ==> HalfSum(DEFAULT_TAPS, k + 2) == HalfSum(DEFAULT_TAPS, k + 1)
  {
    assert DEFAULT_TAPS[k] == HalfTap(k) && DEFAULT_TAPS[k + 1] == HalfTap(k + 1);
  }

  lemma DefaultScale()
    ensures |DEFAULT_TAPS| == 39 && ScaleSum(DEFAULT_TAPS) == 1.61998902
  {
    hide HalfSum;
    assert HalfSum(DEFAULT_TAPS, 0) == 0.0 by { HalfSumNone(DEFAULT_TAPS); }
    HalfSumStep(0);
    HalfSumStep(2);
    HalfSumStep(4);
    HalfSumStep(6);
    HalfSumStep(8);
    HalfSumStep(10);
    HalfSumStep(12);
    HalfSumStep(14);
    HalfSumStep(16);
    HalfSumStep(18);
    assert DEFAULT_TAPS[19] == HalfTap(19);
  }

  lemma HalfSumNone(taps: seq<real>)
    ensures HalfSum(taps, 0) == 0.0
  {
  }

  lemma QuantisedValue(tap: real, q: int)
    requires tap * 32767.0 + 0.809994510 > 0.0 ==>
               q as real * 1.61998902 <= tap * 32767.0 + 0.80999451 < (q + 1) as real * 1.61998902
    requires tap * 32767.0 + 0.80999451 <= 0.0 ==>
               (q - 1) as real * 1.61998902 < tap * 32767.0 + 0.80999451 <= q as real * 1.61998902
    ensures Quantised(tap, 32767.0 / 1.61998902) == q
  {
    assert (tap * (32767.0 / 1.61998902) + 0.5) * 1.61998902 == tap * 32767.0 + 0.80999451;
  }

  lemma HalfTapQuantised(k: nat)
    requires k <= 19
    ensures Quantised(HalfTap(k), 32767.0 / 1.61998902) == HalfQuantised(k)
  {
    hide Quantised;
    QuantisedValue(HalfTap(k), HalfQuantised(k));
  }

  lemma DefaultQuantised(j: nat)
    requires j < 39
    ensures Quantised(DEFAULT_TAPS[j], 32767.0 / 1.61998902) == DEFAULT_QUANTISED[j]
  {
    hide Quantised, HalfTap, HalfQuantised;
    HalfTapQuantised(if j <= 19 then j else 38 - j);
  }

  lemma AbsSumStep(q: seq<int16>, k: nat)
    requires |q| == 40 && q[..39] == DEFAULT_QUANTISED && k < 39
    ensures AbsSum(q, k + 1) == AbsSum(q, k) + Abs(HalfQuantised(if k <= 19 then k else 38 - k))
  {
    assert q[k] == q[..39][k];
  }

  lemma {:induction false} UpperHalf(q: seq<int16>, k: nat)
    requires |q| == 40 && q[..39] == DEFAULT_QUANTISED && k <= 19
    ensures AbsSum(q, 20 + k) == AbsSum(q, 20) + (AbsSum(q, 19) - AbsSum(q, 19 - k))
  {
    if k > 0 {
      hide AbsSum, HalfQuantised;
      UpperHalf(q, k - 1);
      AbsSumStep(q, 19 + k);
      AbsSumStep(q, 19 - k);
    }
  }

  lemma LowerHalf(q: seq<int16>, k: nat)
    requires |q| == 40 && q[..39] == DEFAULT_QUANTISED && k <= 16 && k % 4 == 0
    ensures AbsSum(q, k + 4) == AbsSum(q, k) + Abs(HalfQuantised(k)) + Abs(HalfQuantised(k + 1)) +
                                Abs(HalfQuantised(k + 2)) + Abs(HalfQuantised(k + 3))
  {
    hide AbsSum, HalfQuantised;
    AbsSumStep(q, k);
    AbsSumStep(q, k + 1);
    AbsSumStep(q, k + 2);
    AbsSumStep(q, k + 3);
  }

  lemma DefaultAbsSum(q: seq<int16>)
    requires |q| == 40 && q[..39] == DEFAULT_QUANTISED
    ensures AbsSum(q, 39) == 32755
  {
    hide AbsSum;
    assert AbsSum(q, 0) == 0 by { AbsSumNone(q); }
    LowerHalf(q, 0);
    LowerHalf(q, 4);
    LowerHalf(q, 8);
    LowerHalf(q, 12);
    LowerHalf(q, 16);
    AbsSumStep(q, 19);
    UpperHalf(q, 19);
  }

  lemma AbsSumNone(q: seq<int16>)
    ensures AbsSum(q, 0) == 0
  {
  }

  lemma DefaultValid()
    ensures ValidTaps(DEFAULT_TAPS) && TrimAssertions(DEFAULT_TAPS) && DEFAULT_TAPS[19] > 0.0
  {
    forall i | 0 <= i < 19
      ensures DEFAULT_TAPS[i] == DEFAULT_TAPS[38 - i] == HalfTap(i)
      ensures (19 - i) % 2 == 0 ==> DEFAULT_TAPS[i] == 0.0
      ensures AbsR(DEFAULT_TAPS[i]) <= 0.5
    {
      SmallTap(i);
    }
  }

  lemma SmallTap(k: nat)
    requires k < 19
    ensures AbsR(HalfTap(k)) <= 0.5 && (k % 2 == 1 ==> HalfTap(k) == 0.0)
  {
  }

  /** The default taps give a filter whose magnitudes sum to 32755, so it never overflows. */
  method CreateDefault() returns (f: Filter)
    ensures HalfbandShape(f) && f.ntaps == 39 && f.taps[..39] == DEFAULT_QUANTISED
    ensures AbsSum(f.taps, f.ntaps) == 32755 && HalfbandRange.NeverOverflows(f.taps)
  {
    hide Quantised, ScaleSum, ValidTaps, TrimAssertions, AbsSum, Convertible;
    DefaultValid();
    DefaultScale();
    PositiveCentreConverts(DEFAULT_TAPS);
    f := Create(DEFAULT_TAPS);
    forall j | 0 <= j < 39 ensures f.taps[j] == DEFAULT_QUANTISED[j] { DefaultQuantised(j); }
    DefaultAbsSum(f.taps);
    PaddedSum(f);
    HalfbandRange.TapBoundPreventsOverflow(f.taps);
  }

  lemma PaddedSum(f: Filter)
    requires HalfbandShape(f)
    ensures AbsSum(f.taps, |f.taps|) == AbsSum(f.taps, f.ntaps)
  {
  }

  const STEEP_TAPS: seq<real> := [4095.5, 0.0, 4096.5, 16383.0, 4096.5, 0.0, 4095.5]

  lemma SteepQuantised()
    ensures Convertible(STEEP_TAPS) && STEEP_TAPS[3] > 0.0
    ensures QuantisedTaps(STEEP_TAPS) == [4096, 0, 4097, 16383, 4097, 0, 4096]
  {
    assert HalfSum(STEEP_TAPS, 2) == 8191.0;
    assert HalfSum(STEEP_TAPS, 3) == 16384.0;
    assert ScaleSum(STEEP_TAPS) == 32767.0;
    PositiveCentreConverts(STEEP_TAPS);
  }

  lemma SteepLowest()
    ensures HalfbandRange.Lowest([4096, 0, 4097, 16383, 4097, 0, 4096], 7) < -0x4000_0000
  {
    var q: seq<int16> := [4096, 0, 4097, 16383, 4097, 0, 4096];
    assert HalfbandRange.Lowest(q, 2) == -32768 * 4096;
    assert HalfbandRange.Lowest(q, 4) == -32768 * 24576;
    assert HalfbandRange.Lowest(q, 6) == -32768 * 28673;
    assert HalfbandRange.Lowest(q, 7) == -32768 * 32769;
  }

  /** Rounding can push the sum of magnitudes past 32767: these valid taps are scaled by
      one and give a filter that some input overflows. */
  lemma QuantisedTapsCanOverflow()
    ensures Convertible(STEEP_TAPS) && STEEP_TAPS[3] > 0.0
    ensures QuantisedTaps(STEEP_TAPS) == [4096, 0, 4097, 16383, 4097, 0, 4096]
    ensures !HalfbandRange.NeverOverflows(QuantisedTaps(STEEP_TAPS) + [0])
  {
    hide Convertible, QuantisedTaps, Trimmed, HalfbandRange.NeverOverflows, HalfbandRange.Lowest, HalfbandRange.Highest;
    SteepQuantised();
    SteepLowest();
    assert |Trimmed(STEEP_TAPS)| == |QuantisedTaps(STEEP_TAPS)| == 7;
    CreatedOverflowFreeIff(STEEP_TAPS);
  }
}
