/** The divisor search against the hardware: no setting of the dividers that meets the
    tolerance is missed, and none is cheaper than the one returned. */
module AdcOptimal {
  import opened Wrappers
  import opened RealMath
  import opened AdcPll

  // A setting of the integer dividers: the CCO runs at 24 MHz times m / n, and the ADC at
  // that divided by s.
  function CcoOf(n: nat, m: nat): real
    requires n > 0
  {
    24_000_000.0 * m as real / n as real
  }

  function Tolerance(target: real, epsilon: real): real {
    target * if epsilon <= 0.0 then 0.000001 else epsilon
  }

  // The hardware can do it and it is close enough.
  ghost predicate Works(target: real, epsilon: real, s: nat, n: nat, m: nat) {
    && s > 0 && 1 <= n <= 256 && 1 <= m <= 32768
    && (exists p: nat, i: nat :: p <= 32 && i <= 256 && i != 1 && EffP(p) * EffI(i) == s)
    && 275_000_000.0 <= CcoOf(n, m) <= 550_000_000.0
    && Abs(CcoOf(n, m) / s as real - target) <= Tolerance(target, epsilon)
  }

  // The divisors the search goes through: the range is open at the upper end.
  predicate Searched(target: real, s: nat) {
    275_000_000.0 <= target * s as real && target * (s + 1) as real <= 550_000_000.0
  }

  // ---------- the nearest M ----------

  lemma NearestInteger(x: real, m: int)
    requires m as real - 0.5 <= x < m as real + 0.5
    ensures Round(x) == m
  {
  }

  // Products differ by less than half the factor, so the quotients by less than one half.
  lemma QuotientNear(q: real, m: real, c: real, x: real, y: real)
    requires c > 0.0 && q * c == x && m * c == y && -(0.49 * c) <= x - y <= 0.49 * c
    ensures m - 0.5 < q < m + 0.5
  {
    assert (m - 0.5) * c == y - 0.5 * c;
    assert (m + 0.5) * c == y + 0.5 * c;
    CancelLessBy(m - 0.5, q, c, y - 0.5 * c, x);
    CancelLessBy(q, m + 0.5, c, x, y + 0.5 * c);
  }

  lemma CcoStep(n: nat)
    requires 1 <= n <= 256
    ensures 24_000_000.0 / n as real >= 93750.0
    ensures 2.0 * (REFERENCE / n as real) == 24_000_000.0 / n as real
  {
    var c := 24_000_000.0 / n as real;
    assert c * n as real == 24_000_000.0;
    CancelLessEq(93750.0, c, n as real);
  }

  /** The clamped integer the CCO is asked for is close to any CCO frequency in range that
      meets the tolerance. */
  lemma DesiredNear(target: real, s: nat, f: real)
    requires target > 0.0 && s > 0 && 275_000_000.0 <= f <= 550_000_000.0
    requires -10000.0 <= f - target * s as real <= 10000.0
    ensures -10001.0 <= DesiredFcco(target, s) as real - f <= 10001.0
    ensures FCCO_MIN <= DesiredFcco(target, s) <= FCCO_MAX
  {
  }

  // Multiplying the tolerance by the divisor: at most 1e-5 of 550 MHz and a little.
  lemma ToleranceAtCco(target: real, epsilon: real, s: nat, f: real)
    requires target > 0.0 && s > 0 && epsilon <= 0.00001 && f <= 550_000_000.0
    requires Abs(f / s as real - target) <= Tolerance(target, epsilon)
    ensures -10000.0 <= f - target * s as real <= 10000.0
  {
    var r := s as real;
    var e := if epsilon <= 0.0 then 0.000001 else epsilon;
    var q, x, w, wr := f / r, target * r, target * e, target * e * r;
    assert q * r == f;
    MulLess(0.0, target, r);
    ScaleGap(q, target, w, r, f, x, wr);
    assert wr == x * e;
    Within(f, x, e, wr);
  }

  lemma ScaleGap(q: real, t: real, w: real, r: real, f: real, x: real, wr: real)
    requires -w <= q - t <= w && r > 0.0 && q * r == f && t * r == x && w * r == wr
    ensures -wr <= f - x <= wr
  {
    MulLessEq(q - t, w, r);
    MulLessEq(-w, q - t, r);
    assert (q - t) * r == f - x && (-w) * r == -wr;
  }

  lemma Within(f: real, x: real, e: real, w: real)
    requires 0.0 < e <= 0.00001 && x > 0.0 && x * e == w && -w <= f - x <= w && f <= 550_000_000.0
    ensures -10000.0 <= f - x <= 10000.0
  {
    MulLessEq(e, 0.00001, x);
    assert w <= 0.00001 * x;
  }

  // EffN(n) over 0..256 is every divisor from 1 to 256; loop index n for divisor n.
  lemma EffNIs(n: nat)
    requires n >= 1
    ensures EffN(n) == n
  {
  }

  /** An integer candidate's CCO is within half a step of the frequency asked for. */
  lemma IntegerCandidateNear(target: real, s: nat, entry: Entry, n: nat)
    requires s > 0 && entry.Entry? && n <= 256
    ensures var c := IntegerCandidate(target, s, entry, n);
            c.n == n && !c.fractional && c.valid &&
            Abs(c.fcco - DesiredFcco(target, s) as real) <= 12_000_000.0 / (if n > 0 then n else 1) as real
  {
    var r := REFERENCE / EffN(n) as real;
    var d := DesiredFcco(target, s) as real;
    hide DesiredFcco;
    var x := d / r / 2.0;
    assert 12_000_000.0 / EffN(n) as real == r > 0.0;
    assert x * (2.0 * r) == d;
    RoundNear(x);
    var m := Round(x) as real;
    MulLessEq(m, x + 0.5, 2.0 * r);
    MulLessEq(x - 0.5, m, 2.0 * r);
    assert (x + 0.5) * (2.0 * r) == d + r && (x - 0.5) * (2.0 * r) == d - r;
    assert 2.0 * m * r == m * (2.0 * r);
  }

  lemma RoundNear(x: real)
    ensures x - 0.5 <= Round(x) as real <= x + 0.5
  {
  }

  lemma SettingNear(target: real, epsilon: real, s: nat, n: nat, m: nat)
    requires target > 0.0 && epsilon <= 0.00001 && Works(target, epsilon, s, n, m)
    ensures s > 0 && 1 <= n <= 256
    ensures -10001.0 <= DesiredFcco(target, s) as real - CcoOf(n, m) <= 10001.0
  {
    hide CcoOf, DesiredFcco, Tolerance;
    ToleranceAtCco(target, epsilon, s, CcoOf(n, m));
    DesiredNear(target, s, CcoOf(n, m));
  }

  // The candidate for that N is exactly the setting.
  lemma CandidateIs(target: real, epsilon: real, s: nat, n: nat, m: nat, entry: Entry)
    requires target > 0.0 && epsilon <= 0.00001 && Works(target, epsilon, s, n, m) && entry.Entry?
    ensures IntegerCandidate(target, s, entry, n).m == m as real
    ensures IntegerCandidate(target, s, entry, n).fcco == CcoOf(n, m)
  {
    hide Works, DesiredFcco, CcoOf, Round;
    SettingNear(target, epsilon, s, n, m);
    var f := CcoOf(n, m);
    var c := 24_000_000.0 / n as real;
    CcoStep(n);
    EffNIs(n);
    CcoIs(n, m, c);
    var d := DesiredFcco(target, s) as real;
    assert d / c * c == d;
    QuotientNear(d / c, m as real, c, d, f);
    assert d / (REFERENCE / n as real) / 2.0 == d / c by { HalfQuotient(d, REFERENCE / n as real, c); }
    NearestInteger(d / c, m);
    assert 2.0 * m as real * (REFERENCE / n as real) == m as real * c by { TwiceM(m as real, REFERENCE / n as real, c); }
  }

  lemma CcoIs(n: nat, m: nat, c: real)
    requires n > 0 && c == 24_000_000.0 / n as real
    ensures CcoOf(n, m) == m as real * c
  {
    assert c * n as real == 24_000_000.0;
    assert m as real * c * n as real == m as real * (c * n as real);
  }

  lemma HalfQuotient(d: real, r: real, c: real)
    requires r > 0.0 && c == 2.0 * r
    ensures d / r / 2.0 == d / c
  {
    var q := d / c;
    assert q * (2.0 * r) == d;
    assert (q * 2.0) * r == d;
  }

  lemma TwiceM(m: real, r: real, c: real)
    requires c == 2.0 * r
    ensures 2.0 * m * r == m * c
  {
  }

  // ---------- it is among the candidates ----------

  lemma InRangeIff(target: real, s: nat)
    requires target > 0.0 && Searched(target, s)
    ensures RangeMin(target) <= s < RangeMax(target)
  {
    var a, b := 275_000_000.0 / target, 550_000_000.0 / target;
    assert a * target == 275_000_000.0 && b * target == 550_000_000.0;
    CancelLessEq(a, s as real, target);
    CancelLessEq((s + 1) as real, b, target);
  }

  lemma InTable(s: nat)
    requires exists p: nat, i: nat :: p <= 32 && i <= 256 && i != 1 && EffP(p) * EffI(i) == s
    ensures 0 < s < TABLE_SIZE && TableEntry(s).Entry?
  {
    hide TableEntry;
    var p: nat, i: nat :| p <= 32 && i <= 256 && i != 1 && EffP(p) * EffI(i) == s;
    ProductInTable(P_MAX, I_MAX, p, i);
    TableHas(s, p, i);
  }

  // The integer candidates follow the fractional one, if there is one.
  lemma CandidateAt(target: real, fractional: bool, s: nat, n: nat)
    requires 0 < s < TABLE_SIZE && TableEntry(s).Entry? && n <= 256
    ensures (if fractional then n + 1 else n) < |CandidatesAt(target, fractional, s)|
    ensures CandidatesAt(target, fractional, s)[if fractional then n + 1 else n]
            == IntegerCandidate(target, s, TableEntry(s), n)
  {
    hide TableEntry, IntegerCandidate, FractionalCandidate;
    assert IntegerCandidates(target, s, TableEntry(s), N_MAX + 1)[n] == IntegerCandidate(target, s, TableEntry(s), n);
  }

  lemma CandidateError(target: real, s: nat, n: nat, entry: Entry)
    requires s > 0 && entry.Entry?
    ensures var c := IntegerCandidate(target, s, entry, n);
            c.valid && !c.fractional && c.error == Abs(c.fcco / s as real - target)
  {
    hide DesiredFcco, Round;
  }

  // What a candidate for the setting holds.
  predicate IsSetting(c: Config, target: real, s: nat, n: nat, m: nat)
    requires s > 0 && n > 0
  {
    c.valid && !c.fractional && c.m == m as real && c.fcco == CcoOf(n, m) && c.error == Abs(CcoOf(n, m) / s as real - target)
  }

  // The setting is found at some position of the search.
  lemma SettingIsCandidate(target: real, epsilon: real, fractional: bool, s: nat, n: nat, m: nat) returns (j: nat)
    requires target > 0.0 && epsilon <= 0.00001 && Works(target, epsilon, s, n, m) && Searched(target, s)
    ensures RangeMin(target) > 0 && RangeMax(target) >= 0
    ensures j < |Candidates(target, fractional, RangeMin(target), RangeMax(target))|
    ensures s > 0 && n > 0 && IsSetting(Candidates(target, fractional, RangeMin(target), RangeMax(target))[j], target, s, n, m)
  {
    InTable(s);
    InRangeIff(target, s);
    RangeMinPositive(target);
    hide TableEntry, RangeMin, RangeMax, Candidates, CandidatesAt, IntegerCandidate, CcoOf;
    CandidateIs(target, epsilon, s, n, m, TableEntry(s));
    CandidateError(target, s, n, TableEntry(s));
    CandidateAt(target, fractional, s, n);
    hide Works;
    j := CandidateIncluded(target, fractional, RangeMin(target), RangeMax(target), s, if fractional then n + 1 else n);
  }

  lemma SettingAdmissible(c: Config, target: real, epsilon: real, s: nat, n: nat, m: nat)
    requires Works(target, epsilon, s, n, m) && IsSetting(c, target, s, n, m)
    ensures Admissible(c, Threshold(target, epsilon))
  {
    hide CcoOf;
  }

  // ---------- optimality ----------

  // What the chip pays for a configuration: M, four times as much if it is fractional.
  function Cost(c: Config): real { if c.fractional then 4.0 * c.m else c.m }

  // The crystal divided down directly.
  ghost predicate CrystalWorks(target: real, epsilon: real, d: nat) {
    1 <= d <= 256 && Abs(12_000_000.0 / d as real - target) <= Tolerance(target, epsilon)
  }

  lemma CrystalNear(target: real, epsilon: real, d: nat)
    requires target > 0.0 && epsilon <= 0.00001 && CrystalWorks(target, epsilon, d)
    ensures Round(REFERENCE / target) == d
  {
    var e := if epsilon <= 0.0 then 0.000001 else epsilon;
    var q := 12_000_000.0 / d as real;
    assert q * d as real == 12_000_000.0;
    CrystalScaled(target, e, q, d as real);
    hide Round;
    var x := REFERENCE / target;
    assert x * target == REFERENCE;
    QuotientNear(x, d as real, target, REFERENCE, d as real * target);
    NearestInteger(x, d);
  }

  // target * d is within one part in a hundred thousand of the crystal, d <= 256 times less
  // than half of target.
  lemma CrystalScaled(target: real, e: real, q: real, d: real)
    requires target > 0.0 && 0.0 < e <= 0.00001 && 1.0 <= d <= 256.0 && q * d == 12_000_000.0
    requires Abs(q - target) <= target * e
    ensures -(0.4 * target) <= 12_000_000.0 - d * target <= 0.4 * target
  {
    var w := 0.00001 * target;
    MulLessEqBy(e, 0.00001, target, target * e, w);
    assert (q - target) * d == 12_000_000.0 - d * target;
    CrystalGap(q - target, w, d, 12_000_000.0 - d * target, w * d);
  }

  lemma CrystalGap(x: real, w: real, d: real, xd: real, wd: real)
    requires -w <= x <= w && 1.0 <= d <= 256.0 && x * d == xd && w * d == wd
    ensures -(256.0 * w) <= xd <= 256.0 * w
  {
    assert (-w) * d == -wd && d * w == wd;
    MulLessEqBy(x, w, d, xd, wd);
    MulLessEqBy(-w, x, d, -wd, xd);
    MulLessEqBy(d, 256.0, w, wd, 256.0 * w);
  }

  // What the crystal gives when some divisor is close enough.
  lemma CrystalChosen(target: real, threshold: real, epsilon: real, d: nat)
    requires target > 0.0 && epsilon <= 0.00001 && CrystalWorks(target, epsilon, d) && threshold == Tolerance(target, epsilon)
    ensures NoPll(target, threshold).Some?
    ensures var c := NoPll(target, threshold).value;
            c.valid && !c.fractional && c.m == 0.0 && c.n == 0 && c.p == 0 && c.i == (if d == 1 then 0 else d) &&
            c.frequency == 12_000_000.0 / d as real
  {
    CrystalNear(target, epsilon, d);
  }

  lemma CrystalFound(target: real, threshold: real, epsilon: real)
    requires target > 0.0 && threshold == Tolerance(target, epsilon) && NoPll(target, threshold).Some?
    ensures exists d :: CrystalWorks(target, epsilon, d)
  {
    assert CrystalWorks(target, epsilon, Round(REFERENCE / target));
  }

  /** The crystal is used directly exactly when it is allowed and some divisor from 1 to 256
      is within the tolerance. */
  lemma CrystalIff(target: real, minimizeError: bool, fractional: bool, noPll: bool, epsilon: real)
    requires 0.0 < target <= 80_000_000.0 && epsilon <= 0.00001
    ensures (Find(target, minimizeError, fractional, noPll, epsilon).Ok? &&
             Find(target, minimizeError, fractional, noPll, epsilon).value.m == 0.0)
            <==> noPll && exists d :: CrystalWorks(target, epsilon, d)
  {
    hide SearchPll, NoPll, CrystalWorks;
    if d :| CrystalWorks(target, epsilon, d) { CrystalChosen(target, Threshold(target, epsilon), epsilon, d); }
    if noPll && NoPll(target, Threshold(target, epsilon)).Some? {
      CrystalFound(target, Threshold(target, epsilon), epsilon);
      CrystalHasNoM(target, Threshold(target, epsilon));
    } else if Find(target, minimizeError, fractional, noPll, epsilon).Ok? {
      FoundRunsPll(target, minimizeError, fractional, noPll, epsilon);
    }
  }

  lemma CrystalHasNoM(target: real, threshold: real)
    requires target > 0.0 && NoPll(target, threshold).Some?
    ensures NoPll(target, threshold).value.m == 0.0
  {
  }

  /** And then the divisor is programmed as it is, except that one is programmed as zero. */
  lemma CrystalDivides(target: real, minimizeError: bool, fractional: bool, epsilon: real, d: nat)
    requires 0.0 < target <= 80_000_000.0 && epsilon <= 0.00001 && CrystalWorks(target, epsilon, d)
    ensures Find(target, minimizeError, fractional, true, epsilon).Ok?
    ensures var c := Find(target, minimizeError, fractional, true, epsilon).value;
            c.m == 0.0 && c.n == 0 && c.p == 0 && c.i == (if d == 1 then 0 else d) &&
            c.frequency == 12_000_000.0 / d as real
  {
    hide SearchPll, NoPll, CrystalWorks;
    CrystalChosen(target, Threshold(target, epsilon), epsilon, d);
  }

  lemma FoundRunsPll(target: real, minimizeError: bool, fractional: bool, noPll: bool, epsilon: real)
    requires target > 0.0 && Find(target, minimizeError, fractional, noPll, epsilon).Ok?
    requires !(noPll && NoPll(target, Threshold(target, epsilon)).Some?)
    ensures Find(target, minimizeError, fractional, noPll, epsilon).value.m > 0.0
  {
    hide Find, Candidates, FirstMinimumAt, RangeMin, RangeMax, NoPll, Consistent;
    FoundIsFirstBest(target, minimizeError, fractional, noPll, epsilon);
  }

  /** Completeness and optimality over the hardware's integer settings: if some setting in the
      searched range meets the tolerance, the search succeeds, with or without fractional M,
      and unless the crystal is used directly its result costs no more than that setting,
      or is no less accurate when accuracy is asked for. */
  lemma NoSettingIsBetter(target: real, minimizeError: bool, fractional: bool, noPll: bool, epsilon: real,
                          s: nat, n: nat, m: nat)
    requires 0.0 < target <= 80_000_000.0 && epsilon <= 0.00001
    requires Works(target, epsilon, s, n, m) && Searched(target, s)
    ensures Find(target, minimizeError, fractional, noPll, epsilon).Ok?
    ensures s > 0 && n > 0
    ensures var c := Find(target, minimizeError, fractional, noPll, epsilon).value;
            c.m != 0.0 ==>
              if minimizeError then c.error <= Abs(CcoOf(n, m) / s as real - target)
              else Cost(c) <= m as real && (Cost(c) == m as real ==> !c.fractional)
  {
    var threshold := Threshold(target, epsilon);
    var j := SettingIsCandidate(target, epsilon, fractional, s, n, m);
    var candidates := Candidates(target, fractional, RangeMin(target), RangeMax(target));
    SettingAdmissible(candidates[j], target, epsilon, s, n, m);
    PickIsFirstMinimum(candidates, minimizeError, threshold);
    hide Candidates, RangeMin, RangeMax, Works, Admissible, Threshold, CcoOf, Pick;
    var w := Pick(candidates, minimizeError, threshold);
    assert w.valid;
    if !(noPll && NoPll(target, threshold).Some?) {
      var k :| FirstMinimumAt(w, k, candidates, minimizeError, threshold);
      assert !IsBetter(w, candidates[j], minimizeError, threshold);
      IsBetterIsLexicographic(w, candidates[j], minimizeError, threshold);
    }
  }

  function Divisor(n: nat): (r: nat)
    ensures r > 0
  {
    if n > 0 then n else 1
  }

  // The hardware's limits and the tolerance, in numbers.
  ghost predicate Runs(c: Config, target: real, epsilon: real, fractional: bool) {
    && c.valid && Abs(c.frequency - target) <= Tolerance(target, epsilon) && c.error == Abs(c.frequency - target)
    && c.n <= 256 && c.p <= 32 && c.i <= 256 && c.i != 1
    && 275_000_000.0 <= c.fcco <= 550_000_000.0
    && c.fcco * Divisor(c.n) as real == 24_000_000.0 * c.m
    && c.frequency * ((if c.p > 0 then 2 * c.p else 1) * Divisor(c.i)) as real == c.fcco
    && (c.fractional ==> fractional && c.n == 0 && 1 <= Round(c.m * 32768.0) < 4194304)
    && (!c.fractional ==> 1.0 <= c.m <= 32768.0)
  }

  lemma ConsistentRuns(c: Config, target: real, epsilon: real, fractional: bool)
    requires Consistent(c, target, fractional) && Admissible(c, Threshold(target, epsilon))
    ensures Runs(c, target, epsilon, fractional)
  {
    hide SmallestI, RealMath.Abs, Round;
    EntryLegal(c.p, c.i);
    EffPositive(c.p, c.i);
    ByDivisor(c.fcco, c.m, EffN(c.n) as real);
    TimesDivisor(c.frequency, c.fcco, EffP(c.p) * EffI(c.i));
  }

  lemma EffPositive(p: nat, i: nat)
    ensures EffP(p) * EffI(i) > 0
  {
    IntMulLess(0, EffP(p), EffI(i));
  }

  lemma ByDivisor(f: real, m: real, n: real)
    requires n > 0.0 && f == 2.0 * m * (REFERENCE / n)
    ensures f * n == 24_000_000.0 * m
  {
    var r := REFERENCE / n;
    assert r * n == REFERENCE;
    assert 2.0 * m * r * n == 2.0 * m * (r * n);
  }

  lemma TimesDivisor(q: real, f: real, n: nat)
    requires n > 0 && q == f / n as real
    ensures q * n as real == f
  {
  }

  /** What the search returns, unless it uses the crystal directly, runs the hardware within
      its limits and meets the tolerance. */
  lemma FoundSettings(target: real, minimizeError: bool, fractional: bool, noPll: bool, epsilon: real)
    requires target > 0.0 && Find(target, minimizeError, fractional, noPll, epsilon).Ok?
    ensures var c := Find(target, minimizeError, fractional, noPll, epsilon).value;
            if c.m == 0.0 then noPll && c.valid && Abs(c.frequency - target) <= Tolerance(target, epsilon)
            else Runs(c, target, epsilon, fractional)
  {
    hide Candidates, FirstMinimumAt, RangeMin, RangeMax, Consistent, Admissible, SearchPll, Runs;
    FoundIsFirstBest(target, minimizeError, fractional, noPll, epsilon);
    var c := Find(target, minimizeError, fractional, noPll, epsilon).value;
    if !(noPll && NoPll(target, Threshold(target, epsilon)).Some?) {
      FoundRunsPll(target, minimizeError, fractional, noPll, epsilon);
      ConsistentRuns(c, target, epsilon, fractional);
    }
  }

  lemma EntryLegal(p: nat, i: nat)
    ensures SmallestI(P_MAX, I_MAX, EffP(p) * EffI(i), Entry(p, i)) ==> p <= 32 && i <= 256 && i != 1
  {
  }

  // ---------- the fractional candidate ----------

  lemma RoundIsNearest(x: real, k: int)
    ensures Abs(Round(x) as real - x) <= Abs(k as real - x)
    ensures Abs(Round(x) as real - x) <= 0.5
  {
    RoundNear(x);
    IntegersApart(Round(x), k);
    hide Round;
  }

  lemma IntegersApart(n: int, k: int)
    ensures n == k || (k as real <= n as real - 1.0) || (k as real >= n as real + 1.0)
  {
    if k < n {
      assert k <= n - 1;
    } else if k > n {
      assert k >= n + 1;
    }
  }

  // An integer beyond the next one is not nearer.
  lemma NextIsNearest(x: real, k: int)
    ensures x > Round(x) as real && k >= Round(x) + 1 ==> Abs((Round(x) + 1) as real - x) <= Abs(k as real - x)
    ensures x < Round(x) as real && k <= Round(x) - 1 ==> Abs((Round(x) - 1) as real - x) <= Abs(k as real - x)
  {
  }

  lemma ScaleAbs(a: real, x: real, k: real)
    requires Abs(a - x) <= Abs(k - x)
    ensures Abs(a * 732.421875 - x * 732.421875) <= Abs(k * 732.421875 - x * 732.421875)
  {
  }

  lemma StepIs(desired: int, scaled: int)
    ensures desired as real / REFERENCE / 2.0 * 32768.0 * 732.421875 == desired as real
    ensures 2.0 * scaled as real / 32768.0 * REFERENCE == scaled as real * 732.421875
  {
  }

  /** Of all multiples of the CCO step in range, the fractional M gives one nearest to the
      frequency asked for. */
  lemma ScaledMIsNearest(desired: int, k: int)
    requires 275_000_000 <= desired <= 550_000_000
    requires 275_000_000.0 <= k as real * 732.421875 <= 550_000_000.0
    ensures Abs(ScaledM(desired) as real * 732.421875 - desired as real) <= Abs(k as real * 732.421875 - desired as real)
  {
    hide Round, RealMath.Abs;
    var x := desired as real / REFERENCE / 2.0 * 32768.0;
    StepIs(desired, Round(x));
    RoundIsNearest(x, k);
    NextIsNearest(x, k);
    ScaleAbs(ScaledM(desired) as real, x, k as real);
  }
}
