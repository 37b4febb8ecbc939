/** The ADC clock search: the P/I factorisation table, the candidate comparator
    and the nested search over output divisors.  Doubles are reals. */
module AdcPll {
  import opened Wrappers
  import opened RealMath

  const FCCO_MIN := 275_000_000
  const FCCO_MAX := 550_000_000
  const REFERENCE := 12_000_000.0
  const RATE_MAX := 80_000_000.0
  const N_MAX := 256
  const P_MAX := 32
  const I_MAX := 256
  const TABLE_SIZE := P_MAX * 2 * I_MAX + 1

  function EffN(n: nat): nat { if n > 0 then n else 1 }

  function EffP(p: nat): nat { if p > 0 then p * 2 else 1 }

  function EffI(i: nat): nat { if i > 0 then i else 1 }

  // ---------- the table of (effective P * effective I) -> (P, I) ----------

  datatype Entry = Unset | Entry(p: nat, i: nat)

  predicate Legal(pMax: nat, iMax: nat, p: nat, i: nat) {
    p <= pMax && i <= iMax && i != 1
  }

  predicate Factors(p: nat, i: nat, s: nat) {
    EffP(p) * EffI(i) == s
  }

  // e is the legal factorisation of s with the smallest I, or s has none.
  ghost predicate SmallestI(pMax: nat, iMax: nat, s: nat, e: Entry) {
    match e
    case Unset => forall p, i :: Legal(pMax, iMax, p, i) ==> !Factors(p, i, s)
    case Entry(p, i) =>
      && Legal(pMax, iMax, p, i) && Factors(p, i, s)
      && forall p', i' :: Legal(pMax, iMax, p', i') && Factors(p', i', s) ==> i <= i'
  }

  // That description leaves no choice.
  lemma SmallestIUnique(pMax: nat, iMax: nat, s: nat, e: Entry, e': Entry)
    requires SmallestI(pMax, iMax, s, e) && SmallestI(pMax, iMax, s, e')
    ensures e == e'
  {
    if e.Entry? && e'.Entry? {
      assert e.i == e'.i;
      IntCancel(EffP(e.p), EffP(e'.p), EffI(e.i));
    }
  }

  // Pairs the double loop has gone through when it is about to handle (p, i).
  ghost predicate Visited(p: nat, i: nat, p': nat, i': nat) {
    p' < p || (p' == p && i' < i)
  }

  ghost predicate SmallestSoFar(pMax: nat, iMax: nat, p: nat, i: nat, s: nat, e: Entry) {
    match e
    case Unset => forall p', i' :: Legal(pMax, iMax, p', i') && Visited(p, i, p', i') ==> !Factors(p', i', s)
    case Entry(q, j) =>
      && Legal(pMax, iMax, q, j) && Factors(q, j, s)
      && forall p', i' :: Legal(pMax, iMax, p', i') && Visited(p, i, p', i') && Factors(p', i', s) ==> j <= i'
  }

  lemma ProductInTable(pMax: nat, iMax: nat, p: nat, i: nat)
    requires pMax >= 1 && iMax >= 1 && Legal(pMax, iMax, p, i)
    ensures 0 < EffP(p) * EffI(i) < pMax * 2 * iMax + 1
  {
    var a, b := EffP(p), EffI(i);
    assert 1 <= a <= pMax * 2 && 1 <= b <= iMax;
    assert a * b <= (pMax * 2) * b <= (pMax * 2) * iMax;
    assert a * b >= 1;
  }

  method MakePITable(pMax: nat, iMax: nat) returns (table: array<Entry>)
    requires pMax >= 1 && iMax >= 1
    ensures table.Length == pMax * 2 * iMax + 1
    ensures forall s :: 0 <= s < table.Length ==> SmallestI(pMax, iMax, s, table[s])
    ensures forall s :: 0 <= s < table.Length ==> table[s] == FirstFactor(pMax, iMax, s, 0)
  {
    hide FirstFactor, SmallestI;
    table := new Entry[pMax * 2 * iMax + 1](_ => Unset);
    var p := 0;
    while p <= pMax
      invariant 0 <= p <= pMax + 1
      invariant forall s :: 0 <= s < table.Length ==> SmallestSoFar(pMax, iMax, p, 0, s, table[s])
    {
      var i := 0;
      while i <= iMax
        invariant 0 <= i <= iMax + 1
        invariant forall s :: 0 <= s < table.Length ==> SmallestSoFar(pMax, iMax, p, i, s, table[s])
      {
        if i != 1 {
          ProductInTable(pMax, iMax, p, i);
          var product := EffP(p) * EffI(i);
          if table[product].Unset? || i < table[product].i {
            table[product] := Entry(p, i);
          }
          assert Factors(p, i, product);
        }
        i := i + 1;
      }
      p := p + 1;
    }
    forall s | 0 <= s < table.Length
      ensures SmallestI(pMax, iMax, s, table[s]) && table[s] == FirstFactor(pMax, iMax, s, 0)
    {
      CompleteTable(pMax, iMax, s, table[s]);
    }
  }

  lemma CompleteTable(pMax: nat, iMax: nat, s: nat, e: Entry)
    requires SmallestSoFar(pMax, iMax, pMax + 1, 0, s, e)
    ensures SmallestI(pMax, iMax, s, e) && e == FirstFactor(pMax, iMax, s, 0)
  {
    FirstFactorIsSmallest(pMax, iMax, s, 0);
    SmallestIUnique(pMax, iMax, s, e, FirstFactor(pMax, iMax, s, 0));
  }

  // The table entry as a function of s: try I = 0, 2, 3, ... in turn.
  function FirstFactor(pMax: nat, iMax: nat, s: nat, i: nat): Entry
    decreases iMax + 1 - i
  {
    if i > iMax then Unset
    else if i != 1 && s == EffI(i) then Entry(0, i)
    else if i != 1 && s % (2 * EffI(i)) == 0 && 1 <= s / (2 * EffI(i)) <= pMax then Entry(s / (2 * EffI(i)), i)
    else FirstFactor(pMax, iMax, s, i + 1)
  }

  lemma FactorsOf(p: nat, i: nat, s: nat)
    requires Factors(p, i, s)
    ensures if p == 0 then s == EffI(i) else s % (2 * EffI(i)) == 0 && s / (2 * EffI(i)) == p
  {
    if p > 0 {
      var d := 2 * EffI(i);
      assert s == p * d;
      assert s / d == p && s % d == 0 by { DivideExact(p, d); }
    }
  }

  lemma DivideExact(p: nat, d: nat)
    requires d > 0
    ensures (p * d) / d == p && (p * d) % d == 0
  {
    var x := p * d;
    RemainderZero(x / d, x % d, p, d);
  }

  lemma FactorHere(i: nat, s: nat)
    requires s % (2 * EffI(i)) == 0 && 1 <= s / (2 * EffI(i))
    ensures Factors(s / (2 * EffI(i)), i, s)
  {
    var d := 2 * EffI(i);
    assert s == (s / d) * d;
  }

  lemma NoFactorHere(pMax: nat, i: nat, s: nat, p': nat)
    requires p' <= pMax && i != 1 && s != EffI(i)
    requires !(s % (2 * EffI(i)) == 0 && 1 <= s / (2 * EffI(i)) <= pMax)
    ensures !Factors(p', i, s)
  {
    if Factors(p', i, s) { FactorsOf(p', i, s); }
  }

  lemma FactorOfNone(i: nat, s: nat)
    requires s == EffI(i)
    ensures Factors(0, i, s)
  {
  }

  lemma {:induction false} FirstFactorIsSmallest(pMax: nat, iMax: nat, s: nat, i: nat)
    requires forall p': nat, i': nat :: Legal(pMax, iMax, p', i') && i' < i ==> !Factors(p', i', s)
    ensures SmallestI(pMax, iMax, s, FirstFactor(pMax, iMax, s, i))
    decreases iMax + 1 - i
  {
    hide Factors;
    if i <= iMax {
      if i != 1 && s == EffI(i) {
        FactorOfNone(i, s);
      } else if i != 1 && s % (2 * EffI(i)) == 0 && 1 <= s / (2 * EffI(i)) <= pMax {
        FactorHere(i, s);
      } else {
        forall p' | Legal(pMax, iMax, p', i) ensures !Factors(p', i, s) { NoFactorHere(pMax, i, s, p'); }
        FirstFactorIsSmallest(pMax, iMax, s, i + 1);
      }
    }
  }

  function TableEntry(s: nat): Entry {
    FirstFactor(P_MAX, I_MAX, s, 0)
  }

  lemma TableEntryCorrect(s: nat)
    ensures SmallestI(P_MAX, I_MAX, s, TableEntry(s))
  {
    FirstFactorIsSmallest(P_MAX, I_MAX, s, 0);
  }

  // ---------- candidates and their comparison ----------

  datatype Config = Config(
    valid: bool, fractional: bool, n: nat, m: real, p: nat, i: nat, error: real, fcco: real, frequency: real)

  const NO_CONFIG := Config(false, false, 0, 0.0, 0, 0, 0.0, 0.0, 0.0)

  // C round() on a non-negative value.
  function Round(x: real): int { (x + 0.5).Floor }

  function FixedPointM(m: real): int { Round(m * 32768.0) }

  predicate Admissible(c: Config, threshold: real) {
    && c.valid
    && FCCO_MIN as real <= c.fcco <= FCCO_MAX as real
    && (!c.fractional ==> 1.0 <= c.m <= 32768.0)
    && (c.fractional ==> 1 <= FixedPointM(c.m) < 0x40_0000)
    && c.error <= threshold
  }

  // pg2sdr__adc_candidate_is_better, branch by branch.
  predicate IsBetter(best: Config, c: Config, minimizeError: bool, threshold: real) {
    if !Admissible(c, threshold) then false
    else if !best.valid then true
    else if minimizeError then c.error < best.error
    else if best.fractional == c.fractional then c.m < best.m
    else if best.fractional then c.m <= best.m * 4.0
    else !(best.m <= c.m * 4.0)
  }

  // The order the branches amount to: by error, or by (cost, fractional) lexicographically.
  datatype Key = Key(cost: real, tie: int)

  function KeyOf(c: Config, minimizeError: bool): Key {
    if minimizeError then Key(c.error, 0)
    else if c.fractional then Key(4.0 * c.m, 1)
    else Key(c.m, 0)
  }

  predicate KeyLess(a: Key, b: Key) {
    a.cost < b.cost || (a.cost == b.cost && a.tie < b.tie)
  }

  lemma IsBetterIsLexicographic(best: Config, c: Config, minimizeError: bool, threshold: real)
    ensures IsBetter(best, c, minimizeError, threshold) <==>
            Admissible(c, threshold) && (!best.valid || KeyLess(KeyOf(c, minimizeError), KeyOf(best, minimizeError)))
  {
  }

  // On admissible candidates it is a strict weak order.
  lemma IsBetterIsStrictWeakOrder(a: Config, b: Config, c: Config, minimizeError: bool, threshold: real)
    requires Admissible(a, threshold) && Admissible(b, threshold) && Admissible(c, threshold)
    ensures !IsBetter(a, a, minimizeError, threshold)
    ensures IsBetter(a, b, minimizeError, threshold) && IsBetter(b, c, minimizeError, threshold) ==>
              IsBetter(a, c, minimizeError, threshold)
    ensures IsBetter(a, c, minimizeError, threshold) ==>
              IsBetter(a, b, minimizeError, threshold) || IsBetter(b, c, minimizeError, threshold)
  {
    IsBetterIsLexicographic(a, a, minimizeError, threshold);
    IsBetterIsLexicographic(a, b, minimizeError, threshold);
    IsBetterIsLexicographic(b, c, minimizeError, threshold);
    IsBetterIsLexicographic(a, c, minimizeError, threshold);
  }

  // target * s truncated to an integer and clamped to the CCO range
  function DesiredFcco(target: real, s: nat): int {
    var d := (target * s as real).Floor;
    var capped := if d < FCCO_MAX then d else FCCO_MAX;
    if capped > FCCO_MIN then capped else FCCO_MIN
  }

  function MakeConfig(target: real, s: nat, fractional: bool, n: nat, m: real, entry: Entry, fcco: real): Config
    requires s > 0 && entry.Entry?
  {
    var frequency := fcco / s as real;
    Config(true, fractional, n, m, entry.p, entry.i, Abs(frequency - target), fcco, frequency)
  }

  // M in units of 1/32768: rounded, then moved back into the CCO range if rounding left it.
  function ScaledM(desired: int): int {
    var scaled := Round(desired as real / REFERENCE / 2.0 * 32768.0);
    var test := 2.0 * scaled as real / 32768.0 * REFERENCE;
    if test < FCCO_MIN as real then scaled + 1
    else if test > FCCO_MAX as real then scaled - 1
    else scaled
  }

  function FractionalCandidate(target: real, s: nat, entry: Entry): Config
    requires s > 0 && entry.Entry?
  {
    var m := ScaledM(DesiredFcco(target, s)) as real / 32768.0;
    MakeConfig(target, s, true, 0, m, entry, 2.0 * m * REFERENCE)
  }

  function IntegerCandidate(target: real, s: nat, entry: Entry, n: nat): Config
    requires s > 0 && entry.Entry?
  {
    var nReference := REFERENCE / EffN(n) as real;
    var m := Round(DesiredFcco(target, s) as real / nReference / 2.0) as real;
    MakeConfig(target, s, false, n, m, entry, 2.0 * m * nReference)
  }

  // The integer candidates for divisor s with N below `count`, in loop order.
  function IntegerCandidates(target: real, s: nat, entry: Entry, count: nat): seq<Config>
    requires s > 0 && entry.Entry?
  {
    seq(count, (n: nat) => IntegerCandidate(target, s, entry, n))
  }

  // Everything the search forms for divisor s, in loop order.
  function CandidatesAt(target: real, fractional: bool, s: nat): seq<Config>
    requires s > 0
  {
    if s >= TABLE_SIZE || TableEntry(s).Unset? then []
    else
      var entry := TableEntry(s);
      (if fractional then [FractionalCandidate(target, s, entry)] else [])
      + IntegerCandidates(target, s, entry, N_MAX + 1)
  }

  function Candidates(target: real, fractional: bool, lo: nat, hi: nat): seq<Config>
    requires lo > 0
    decreases hi
  {
    if hi <= lo then []
    else Candidates(target, fractional, lo, hi - 1) + CandidatesAt(target, fractional, hi - 1)
  }

  // What a pass over the candidates keeps.
  function Pick(candidates: seq<Config>, minimizeError: bool, threshold: real): Config
    decreases |candidates|
  {
    if candidates == [] then NO_CONFIG
    else
      var last := candidates[|candidates| - 1];
      var best := Pick(candidates[..|candidates| - 1], minimizeError, threshold);
      if IsBetter(best, last, minimizeError, threshold) then last else best
  }

  lemma PickOneMore(candidates: seq<Config>, c: Config, minimizeError: bool, threshold: real)
    ensures var best := Pick(candidates, minimizeError, threshold);
            Pick(candidates + [c], minimizeError, threshold)
            == if IsBetter(best, c, minimizeError, threshold) then c else best
  {
    assert (candidates + [c])[..|candidates|] == candidates;
  }

  // w is the earliest of the best admissible candidates.
  ghost predicate FirstMinimumAt(w: Config, k: nat, candidates: seq<Config>, minimizeError: bool, threshold: real) {
    && k < |candidates| && candidates[k] == w && Admissible(w, threshold)
    && (forall j :: 0 <= j < |candidates| ==> !IsBetter(w, candidates[j], minimizeError, threshold))
    && (forall j :: 0 <= j < k && Admissible(candidates[j], threshold) ==>
          IsBetter(candidates[j], w, minimizeError, threshold))
  }

  // One pass finds the first minimum, and finds nothing only when nothing is admissible.
  lemma {:induction false} PickIsFirstMinimum(candidates: seq<Config>, minimizeError: bool, threshold: real)
    ensures var w := Pick(candidates, minimizeError, threshold);
            if w.valid then exists k :: FirstMinimumAt(w, k, candidates, minimizeError, threshold)
            else forall j :: 0 <= j < |candidates| ==> !Admissible(candidates[j], threshold)
    decreases |candidates|
  {
    if candidates != [] {
      var n := |candidates| - 1;
      var front, last := candidates[..n], candidates[n];
      PickIsFirstMinimum(front, minimizeError, threshold);
      var best := Pick(front, minimizeError, threshold);
      if IsBetter(best, last, minimizeError, threshold) {
        if best.valid {
          var k :| FirstMinimumAt(best, k, front, minimizeError, threshold);
          forall j | 0 <= j < |candidates|
            ensures !IsBetter(last, candidates[j], minimizeError, threshold)
            ensures j < n && Admissible(candidates[j], threshold) ==> IsBetter(candidates[j], last, minimizeError, threshold)
          {
            if Admissible(candidates[j], threshold) && j < n {
              assert front[j] == candidates[j];
              IsBetterIsStrictWeakOrder(best, candidates[j], last, minimizeError, threshold);
              IsBetterIsStrictWeakOrder(best, last, candidates[j], minimizeError, threshold);
            }
          }
        } else {
          forall j | 0 <= j < n ensures !Admissible(candidates[j], threshold) {
            assert front[j] == candidates[j];
          }
        }
        assert FirstMinimumAt(last, n, candidates, minimizeError, threshold);
      } else if best.valid {
        var k :| FirstMinimumAt(best, k, front, minimizeError, threshold);
        forall j | 0 <= j < |candidates|
          ensures !IsBetter(best, candidates[j], minimizeError, threshold)
          ensures j < k && Admissible(candidates[j], threshold) ==> IsBetter(candidates[j], best, minimizeError, threshold)
        {
          if j < n { assert front[j] == candidates[j]; }
        }
        assert FirstMinimumAt(best, k, candidates, minimizeError, threshold);
      } else {
        forall j | 0 <= j < |candidates| ensures !Admissible(candidates[j], threshold) {
          if j < n { assert front[j] == candidates[j]; }
        }
      }
    }
  }

  // ---------- the search ----------

  datatype Error = RateRange

  function Threshold(target: real, epsilon: real): real {
    target * (if epsilon <= 0.0 then 0.000001 else epsilon)
  }

  // The configuration that bypasses the PLL, when the crystal divides down closely enough.
  function NoPll(target: real, threshold: real): Option<Config>
    requires target > 0.0
  {
    var divisor := Round(REFERENCE / target);
    if !(1 <= divisor <= 256) then None
    else
      var frequency := REFERENCE / divisor as real;
      var error := Abs(frequency - target);
      if error > threshold then None
      else Some(Config(true, false, 0, 0.0, 0, if divisor == 1 then 0 else divisor, error, 0.0, frequency))
  }

  function Ceil(x: real): int { -((-x).Floor) }

  function RangeMin(target: real): int
    requires target > 0.0
  {
    Ceil(FCCO_MIN as real / target)
  }

  function RangeMax(target: real): int
    requires target > 0.0
  {
    (FCCO_MAX as real / target).Floor
  }

  lemma RangeMinPositive(target: real)
    requires target > 0.0
    ensures RangeMin(target) >= 1 && RangeMax(target) >= 0
  {
    assert FCCO_MIN as real / target > 0.0;
    assert FCCO_MAX as real / target > 0.0;
  }

  function SearchPll(target: real, minimizeError: bool, fractional: bool, threshold: real): Config
    requires target > 0.0
  {
    RangeMinPositive(target);
    Pick(Candidates(target, fractional, RangeMin(target), RangeMax(target)), minimizeError, threshold)
  }

  // The specification of the whole search.
  function Find(target: real, minimizeError: bool, fractional: bool, noPll: bool, epsilon: real): Result<Config, Error>
    requires target > 0.0
  {
    var threshold := Threshold(target, epsilon);
    if target > RATE_MAX then Err(RateRange)
    else if noPll && NoPll(target, threshold).Some? then Ok(NoPll(target, threshold).value)
    else
      var best := SearchPll(target, minimizeError, fractional, threshold);
      if best.valid then Ok(best) else Err(RateRange)
  }

  // The body of the outer loop: every candidate for one divisor s.
  method ScanDivisor(target: real, minimizeError: bool, fractional: bool, threshold: real, s: nat, best: Config,
                     ghost before: seq<Config>)
    returns (best': Config)
    requires s > 0 && best == Pick(before, minimizeError, threshold)
    ensures best' == Pick(before + CandidatesAt(target, fractional, s), minimizeError, threshold)
  {
    hide TableEntry, FractionalCandidate, IntegerCandidate, IsBetter, Pick;
    best' := best;
    ghost var base := before;
    var entry := if s < TABLE_SIZE then TableEntry(s) else Unset;
    if entry.Unset? {
      assert before + [] == before;
      return;
    }
    if fractional {
      var c := FractionalCandidate(target, s, entry);
      PickOneMore(before, c, minimizeError, threshold);
      if IsBetter(best', c, minimizeError, threshold) { best' := c; }
      base := before + [c];
    }
    assert base + IntegerCandidates(target, s, entry, 0) == base;
    var n := 0;
    while n <= N_MAX
      invariant 0 <= n <= N_MAX + 1
      invariant best' == Pick(base + IntegerCandidates(target, s, entry, n), minimizeError, threshold)
    {
      var c := IntegerCandidate(target, s, entry, n);
      PickOneMore(base + IntegerCandidates(target, s, entry, n), c, minimizeError, threshold);
      assert base + IntegerCandidates(target, s, entry, n + 1) == base + IntegerCandidates(target, s, entry, n) + [c];
      if IsBetter(best', c, minimizeError, threshold) { best' := c; }
      n := n + 1;
    }
    assert base + IntegerCandidates(target, s, entry, N_MAX + 1) == before + CandidatesAt(target, fractional, s);
  }

  // pg2sdr__adc_find_divisors.
  method FindDivisors(target: real, minimizeError: bool, fractional: bool, noPll: bool, epsilon: real)
    returns (r: Result<Config, Error>)
    requires target > 0.0
    ensures r == Find(target, minimizeError, fractional, noPll, epsilon)
  {
    hide CandidatesAt, NoPll, IsBetter, RangeMin, RangeMax;
    if target > RATE_MAX {
      return Err(RateRange);
    }
    var threshold := Threshold(target, epsilon);
    if noPll {
      var direct := NoPll(target, threshold);
      if direct.Some? {
        return Ok(direct.value);
      }
    }
    RangeMinPositive(target);
    var lo, hi := RangeMin(target), RangeMax(target);
    var best := NO_CONFIG;
    var s := lo;
    while s < hi
      invariant lo <= s && (s <= hi || s == lo)
      invariant best == Pick(Candidates(target, fractional, lo, s), minimizeError, threshold)
    {
      best := ScanDivisor(target, minimizeError, fractional, threshold, s, best, Candidates(target, fractional, lo, s));
      s := s + 1;
    }
    assert Candidates(target, fractional, lo, s) == Candidates(target, fractional, lo, hi);
    r := if best.valid then Ok(best) else Err(RateRange);
  }

  // ---------- what a successful search returns ----------

  // The settings are mutually consistent and within the hardware's limits.
  ghost predicate Consistent(c: Config, target: real, fractional: bool) {
    && c.n <= N_MAX
    && c.fcco == 2.0 * c.m * (REFERENCE / EffN(c.n) as real)
    && c.frequency == c.fcco / (EffP(c.p) * EffI(c.i)) as real
    && c.error == Abs(c.frequency - target)
    && SmallestI(P_MAX, I_MAX, EffP(c.p) * EffI(c.i), Entry(c.p, c.i))
    && (c.fractional ==> fractional && c.n == 0)
  }

  lemma TableEntryFactors(s: nat)
    requires TableEntry(s).Entry?
    ensures EffP(TableEntry(s).p) * EffI(TableEntry(s).i) == s
  {
    TableEntryCorrect(s);
    assert Factors(TableEntry(s).p, TableEntry(s).i, s);
  }

  lemma MadeConsistent(target: real, s: nat, fractional: bool, n: nat, m: real, allowed: bool)
    requires s > 0 && TableEntry(s).Entry? && n <= N_MAX && (fractional ==> n == 0 && allowed)
    ensures Consistent(MakeConfig(target, s, fractional, n, m, TableEntry(s), 2.0 * m * (REFERENCE / EffN(n) as real)),
                       target, allowed)
  {
    hide TableEntry, SmallestI;
    TableEntryCorrect(s);
    TableEntryFactors(s);
  }

  lemma FractionalConsistent(target: real, s: nat)
    requires s > 0 && TableEntry(s).Entry?
    ensures Consistent(FractionalCandidate(target, s, TableEntry(s)), target, true)
  {
    hide TableEntry, ScaledM, DesiredFcco;
    var m := ScaledM(DesiredFcco(target, s)) as real / 32768.0;
    assert EffN(0) as real == 1.0;
    MadeConsistent(target, s, true, 0, m, true);
    hide Consistent;
  }

  lemma IntegerConsistent(target: real, s: nat, n: nat, fractional: bool)
    requires s > 0 && TableEntry(s).Entry? && n <= N_MAX
    ensures Consistent(IntegerCandidate(target, s, TableEntry(s), n), target, fractional)
  {
    hide TableEntry, DesiredFcco, Round, SmallestI;
    var nReference := REFERENCE / EffN(n) as real;
    var m := Round(DesiredFcco(target, s) as real / nReference / 2.0) as real;
    MadeConsistent(target, s, false, n, m, fractional);
    var c := MakeConfig(target, s, false, n, m, TableEntry(s), 2.0 * m * (REFERENCE / EffN(n) as real));
    assert Consistent(c, target, fractional);
    assert IntegerCandidate(target, s, TableEntry(s), n) == c;
  }

  lemma CandidateAtConsistent(target: real, fractional: bool, s: nat, k: nat)
    requires s > 0 && k < |CandidatesAt(target, fractional, s)|
    ensures Consistent(CandidatesAt(target, fractional, s)[k], target, fractional)
  {
    hide TableEntry, Consistent, FractionalCandidate, IntegerCandidate;
    if fractional && k == 0 {
      FractionalConsistent(target, s);
    } else {
      IntegerConsistent(target, s, if fractional then k - 1 else k, fractional);
    }
  }

  lemma {:induction false} CandidatesConsistent(target: real, fractional: bool, lo: nat, hi: nat, k: nat)
    requires lo > 0 && k < |Candidates(target, fractional, lo, hi)|
    ensures Consistent(Candidates(target, fractional, lo, hi)[k], target, fractional)
    decreases hi
  {
    hide Consistent, CandidatesAt;
    if hi > lo {
      var front := Candidates(target, fractional, lo, hi - 1);
      if k < |front| { CandidatesConsistent(target, fractional, lo, hi - 1, k); }
      else { CandidateAtConsistent(target, fractional, hi - 1, k - |front|); }
    }
  }

  // The result is either a crystal division or a consistent, admissible, first-best candidate.
  lemma FoundIsFirstBest(target: real, minimizeError: bool, fractional: bool, noPll: bool, epsilon: real)
    requires target > 0.0 && Find(target, minimizeError, fractional, noPll, epsilon).Ok?
    ensures var c := Find(target, minimizeError, fractional, noPll, epsilon).value;
            var threshold := Threshold(target, epsilon);
            if noPll && NoPll(target, threshold).Some? then
              c.m == 0.0 && c.frequency == REFERENCE / EffI(c.i) as real && c.i != 1 && c.i <= I_MAX &&
              c.error == Abs(c.frequency - target) <= threshold
            else
              && Consistent(c, target, fractional) && Admissible(c, threshold)
              && RangeMin(target) > 0 && RangeMax(target) >= 0
              && exists k :: FirstMinimumAt(c, k, Candidates(target, fractional, RangeMin(target), RangeMax(target)),
                                            minimizeError, threshold)
  {
    var threshold := Threshold(target, epsilon);
    if !(noPll && NoPll(target, threshold).Some?) {
      RangeMinPositive(target);
      var candidates := Candidates(target, fractional, RangeMin(target), RangeMax(target));
      var c := Pick(candidates, minimizeError, threshold);
      PickIsFirstMinimum(candidates, minimizeError, threshold);
      var k :| FirstMinimumAt(c, k, candidates, minimizeError, threshold);
      CandidatesConsistent(target, fractional, RangeMin(target), RangeMax(target), k);
    }
  }

  // Every result is within the tolerance.
  lemma FoundWithin(target: real, minimizeError: bool, fractional: bool, noPll: bool, epsilon: real)
    requires target > 0.0 && Find(target, minimizeError, fractional, noPll, epsilon).Ok?
    ensures Abs(Find(target, minimizeError, fractional, noPll, epsilon).value.frequency - target) <= Threshold(target, epsilon)
  {
    hide Find, Candidates, FirstMinimumAt, RangeMin, RangeMax, NoPll;
    FoundIsFirstBest(target, minimizeError, fractional, noPll, epsilon);
  }

  // ---------- completeness ----------

  const STEP := 732.421875          // fCCO distance between neighbouring values of M
  const RATE_MIN := 275_000_000.0 / 16384.0

  // Whatever integer the CCO should run at, rounding M lands in range and close by.
  lemma ScaledMAccurate(desired: int)
    requires FCCO_MIN <= desired <= FCCO_MAX
    ensures FCCO_MIN as real <= ScaledM(desired) as real * STEP <= FCCO_MAX as real
    ensures -STEP < ScaledM(desired) as real * STEP - desired as real < STEP
    ensures 1 <= ScaledM(desired) < 0x40_0000
  {
    var x := desired as real / REFERENCE / 2.0 * 32768.0;
    var scaled := Round(x);
    assert x == desired as real / STEP;
    assert x - 0.5 < scaled as real <= x + 0.5;
    assert 2.0 * scaled as real / 32768.0 * REFERENCE == scaled as real * STEP;
  }

  lemma DesiredFccoNear(target: real, s: nat)
    requires FCCO_MIN as real <= target * s as real <= FCCO_MAX as real
    ensures FCCO_MIN <= DesiredFcco(target, s) <= FCCO_MAX
    ensures -1.0 < DesiredFcco(target, s) as real - target * s as real <= 0.0
  {
  }

  lemma DivideError(target: real, s: nat, fcco: real, bound: real)
    requires s > 0 && -bound <= fcco - target * s as real <= bound
    ensures Abs(fcco / s as real - target) <= bound / s as real
  {
    var r := s as real;
    var e := fcco - target * r;
    assert fcco / r - target == e / r;
    assert -bound / r <= e / r <= bound / r;
  }

  // For any usable divisor the fractional candidate is in range and within 734/s Hz.
  lemma FractionalCandidateAccurate(target: real, s: nat, entry: Entry)
    requires s > 0 && entry.Entry? && FCCO_MIN as real <= target * s as real <= FCCO_MAX as real
    ensures var c := FractionalCandidate(target, s, entry);
            FCCO_MIN as real <= c.fcco <= FCCO_MAX as real && 1 <= FixedPointM(c.m) < 0x40_0000 &&
            c.error <= 734.0 / s as real
  {
    DesiredFccoNear(target, s);
    var desired := DesiredFcco(target, s);
    ScaledMAccurate(desired);
    var c := FractionalCandidate(target, s, entry);
    assert c.m * 32768.0 == ScaledM(desired) as real;
    assert c.fcco == ScaledM(desired) as real * STEP;
    DivideError(target, s, c.fcco, 734.0);
  }

  // A divisor 2^k or 3*2^k between a and 2a-1, with its P and I.
  lemma UsableDivisor(a: real) returns (s: nat, p: nat, i: nat)
    requires 3.4375 <= a <= 16384.0
    ensures a <= s as real <= 2.0 * a - 1.0 && 0 < s < TABLE_SIZE
    ensures Legal(P_MAX, I_MAX, p, i) && Factors(p, i, s)
  {
    if a <= 4.0 { s, p, i := 4, 2, 0; }
    else if a <= 6.0 { s, p, i := 6, 3, 0; }
    else if a <= 8.0 { s, p, i := 8, 4, 0; }
    else if a <= 12.0 { s, p, i := 12, 6, 0; }
    else if a <= 16.0 { s, p, i := 16, 8, 0; }
    else if a <= 24.0 { s, p, i := 24, 12, 0; }
    else if a <= 32.0 { s, p, i := 32, 16, 0; }
    else if a <= 48.0 { s, p, i := 48, 24, 0; }
    else if a <= 64.0 { s, p, i := 64, 32, 0; }
    else if a <= 96.0 { s, p, i := 96, 24, 2; }
    else if a <= 128.0 { s, p, i := 128, 32, 2; }
    else if a <= 192.0 { s, p, i := 192, 24, 4; }
    else if a <= 256.0 { s, p, i := 256, 32, 4; }
    else if a <= 384.0 { s, p, i := 384, 24, 8; }
    else if a <= 512.0 { s, p, i := 512, 32, 8; }
    else if a <= 768.0 { s, p, i := 768, 24, 16; }
    else if a <= 1024.0 { s, p, i := 1024, 32, 16; }
    else if a <= 1536.0 { s, p, i := 1536, 24, 32; }
    else if a <= 2048.0 { s, p, i := 2048, 32, 32; }
    else if a <= 3072.0 { s, p, i := 3072, 24, 64; }
    else if a <= 4096.0 { s, p, i := 4096, 32, 64; }
    else if a <= 6144.0 { s, p, i := 6144, 24, 128; }
    else if a <= 8192.0 { s, p, i := 8192, 32, 128; }
    else if a <= 12288.0 { s, p, i := 12288, 24, 256; }
    else { s, p, i := 16384, 32, 256; }
  }

  lemma {:induction false} CandidateIncluded(target: real, fractional: bool, lo: nat, hi: nat, s: nat, k: nat) returns (j: nat)
    requires 0 < lo <= s < hi && k < |CandidatesAt(target, fractional, s)|
    ensures j < |Candidates(target, fractional, lo, hi)|
    ensures Candidates(target, fractional, lo, hi)[j] == CandidatesAt(target, fractional, s)[k]
    decreases hi
  {
    hide CandidatesAt;
    if s == hi - 1 {
      j := |Candidates(target, fractional, lo, hi - 1)| + k;
    } else {
      j := CandidateIncluded(target, fractional, lo, hi - 1, s, k);
    }
  }

  lemma {:induction false} NoCandidatesBeyondTable(target: real, fractional: bool, lo: nat, hi: nat)
    requires lo >= TABLE_SIZE
    ensures Candidates(target, fractional, lo, hi) == []
    decreases hi
  {
    if hi > lo { NoCandidatesBeyondTable(target, fractional, lo, hi - 1); }
  }

  lemma TableHas(s: nat, p: nat, i: nat)
    requires Legal(P_MAX, I_MAX, p, i) && Factors(p, i, s)
    ensures TableEntry(s).Entry?
  {
    hide TableEntry, Factors;
    TableEntryCorrect(s);
  }

  lemma QuotientBounds(target: real)
    requires RATE_MIN <= target <= RATE_MAX
    ensures var a := FCCO_MIN as real / target;
            3.4375 <= a <= 16384.0 && a * target == FCCO_MIN as real && FCCO_MAX as real / target == 2.0 * a
  {
    var a := FCCO_MIN as real / target;
    assert a * target == FCCO_MIN as real;
    CancelLessEq(a, 16384.0, target);
    CancelLessEq(3.4375, a, target);
    assert 2.0 * a * target == FCCO_MAX as real;
  }

  lemma ScaleBounds(a: real, target: real, x: real)
    requires target > 0.0 && a * target == FCCO_MIN as real && a <= x <= 2.0 * a - 1.0
    ensures FCCO_MIN as real <= target * x <= FCCO_MAX as real
  {
    assert a * target <= x * target <= (2.0 * a) * target;
  }

  // Some divisor in the loop's half-open range is in the table.
  lemma DivisorInRange(target: real) returns (s: nat)
    requires RATE_MIN <= target <= RATE_MAX
    ensures RangeMin(target) <= s < RangeMax(target) && 0 < s < TABLE_SIZE && TableEntry(s).Entry?
    ensures FCCO_MIN as real <= target * s as real <= FCCO_MAX as real
  {
    hide TableEntry, Factors, Legal;
    var a := FCCO_MIN as real / target;
    QuotientBounds(target);
    var p, i;
    s, p, i := UsableDivisor(a);
    TableHas(s, p, i);
    ScaleBounds(a, target, s as real);
  }

  lemma ErrorWithinThreshold(target: real, s: nat, epsilon: real)
    requires s > 0 && target * s as real >= FCCO_MIN as real && epsilon >= 734.0 / FCCO_MIN as real
    ensures 734.0 / s as real <= target * epsilon
  {
    var x := s as real;
    assert (target * x) * epsilon >= FCCO_MIN as real * epsilon >= 734.0;
    assert (target * epsilon) * x >= 734.0;
    assert 734.0 / x * x == 734.0;
    CancelLessEq(734.0 / x, target * epsilon, x);
  }

  lemma NoCrystalBelow(target: real, threshold: real)
    requires 0.0 < target < RATE_MIN
    ensures NoPll(target, threshold).None?
  {
    var q := REFERENCE / target;
    assert q * target == REFERENCE;
    if q < 300.0 { MulLess(q, 300.0, target); }
  }

  lemma RangeBeyondTable(target: real)
    requires 0.0 < target < RATE_MIN
    ensures RangeMin(target) >= TABLE_SIZE
  {
    var a := FCCO_MIN as real / target;
    assert a * target == FCCO_MIN as real;
    if a <= 16384.0 { MulLessEq(a, 16384.0, target); }
    assert a > 16384.0;
  }

  lemma FailsBelow(target: real, minimizeError: bool, noPll: bool, epsilon: real)
    requires 0.0 < target < RATE_MIN
    ensures Find(target, minimizeError, true, noPll, epsilon).Err?
  {
    hide Candidates, NoPll;
    NoCrystalBelow(target, Threshold(target, epsilon));
    RangeMinPositive(target);
    RangeBeyondTable(target);
    NoCandidatesBeyondTable(target, true, RangeMin(target), RangeMax(target));
  }

  lemma FractionalAdmissible(target: real, s: nat, epsilon: real)
    requires target > 0.0 && s > 0 && TableEntry(s).Entry? && epsilon >= 734.0 / FCCO_MIN as real
    requires FCCO_MIN as real <= target * s as real <= FCCO_MAX as real
    ensures Admissible(FractionalCandidate(target, s, TableEntry(s)), Threshold(target, epsilon))
  {
    hide TableEntry, FixedPointM;
    FractionalCandidateAccurate(target, s, TableEntry(s));
    ErrorWithinThreshold(target, s, epsilon);
    hide DesiredFcco, ScaledM;
  }

  lemma SucceedsInRange(target: real, minimizeError: bool, noPll: bool, epsilon: real)
    requires RATE_MIN <= target <= RATE_MAX && epsilon >= 734.0 / FCCO_MIN as real
    ensures Find(target, minimizeError, true, noPll, epsilon).Ok?
  {
    hide TableEntry, Candidates, Pick, FractionalCandidate, IntegerCandidates, NoPll, Admissible, RangeMin, RangeMax;
    var threshold := Threshold(target, epsilon);
    RangeMinPositive(target);
    var s := DivisorInRange(target);
    FractionalAdmissible(target, s, epsilon);
    var j := CandidateIncluded(target, true, RangeMin(target), RangeMax(target), s, 0);
    PickIsFirstMinimum(Candidates(target, true, RangeMin(target), RangeMax(target)), minimizeError, threshold);
    hide FirstMinimumAt;
  }

  // With fractional M and a tolerance of 734 / 275e6 (2.67 ppm) or more, the search succeeds
  // exactly for the rates from 275e6/16384 Hz to 80 MHz.
  lemma SearchSucceedsIff(target: real, minimizeError: bool, noPll: bool, epsilon: real)
    requires target > 0.0 && epsilon >= 734.0 / FCCO_MIN as real
    ensures Find(target, minimizeError, true, noPll, epsilon).Ok? <==> 275_000_000.0 / 16384.0 <= target <= 80_000_000.0
  {
    if target < RATE_MIN { FailsBelow(target, minimizeError, noPll, epsilon); }
    else if target <= RATE_MAX { SucceedsInRange(target, minimizeError, noPll, epsilon); }
  }
}
