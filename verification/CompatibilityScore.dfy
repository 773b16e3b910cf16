/** Weighted similarity of two people's signals. */
module CompatibilityScore {
  import opened Basics
  import opened Signals

  const COMPATIBILITY_KEYS: seq<Signal> :=
    [Ambition, SocialBattery, HealthBodyConsciousness, EmotionalDepth, AttachmentSecurity, Directness,
     Independence, Traditionalism, FinancialMindset, RelationshipClarity, Spirituality, LifestylePace,
     PhysicalPriority, StatusOrientation, ConflictStyle]

  const TIER1_KEYS: seq<Signal> :=
    [Traditionalism, FinancialMindset, RelationshipClarity, LifestylePace, Spirituality, AttachmentSecurity]

  function Weight(k: Signal): (w: real)
    ensures w >= 1.0
  {
    match k
    case EmotionalDepth => 1.5
    case FinancialMindset => 1.5
    case Spirituality => 1.5
    case LifestylePace => 1.5
    case ConflictStyle => 1.3
    case AttachmentSecurity => 1.2
    case RelationshipClarity => 1.2
    case PhysicalPriority => 1.2
    case StatusOrientation => 1.2
    case _ => 1.0
  }

  predicate HardKey(k: Signal) {
    k in {EmotionalDepth, FinancialMindset, Spirituality, LifestylePace, PhysicalPriority, StatusOrientation}
  }

  /** Similarity of two values that are `gap` apart, from 10 down to 0. */
  function PairScoreOfGap(gap: real): real {
    var normalized := Min(1.0, Max(0.0, gap / 10.0));
    Min(10.0, Max(0.0, 10.0 * ((1.0 - normalized) * (1.0 - normalized))))
  }

  datatype Entry = Entry(key: Signal, self: real, partner: real, gap: real, pairScore: real)

  function EntryOf(a: SignalMap, b: SignalMap, k: Signal): Entry
    requires Comparable(a, b, k)
  {
    Entry(k, a[k], b[k], Gap(a, b, k), PairScoreOfGap(Gap(a, b, k)))
  }

  /** One entry for each key that both people have, in key order. */
  function Breakdown(keys: seq<Signal>, a: SignalMap, b: SignalMap): seq<Entry> {
    if keys == [] then []
    else
      var (before, k) := (Breakdown(keys[..|keys| - 1], a, b), keys[|keys| - 1]);
      if Comparable(a, b, k) then before + [EntryOf(a, b, k)] else before
  }

  function Term(e: Entry): real { Weight(e.key) * e.pairScore }

  function WeightedSum(es: seq<Entry>): real {
    if es == [] then 0.0 else WeightedSum(es[..|es| - 1]) + Term(es[|es| - 1])
  }

  function TotalWeight(es: seq<Entry>): real {
    if es == [] then 0.0 else TotalWeight(es[..|es| - 1]) + Weight(es[|es| - 1].key)
  }

  predicate IsHardMismatch(e: Entry) { HardKey(e.key) && e.gap >= 7.0 }

  function HardMismatches(es: seq<Entry>): seq<Entry> {
    if es == [] then []
    else
      var before := HardMismatches(es[..|es| - 1]);
      if IsHardMismatch(es[|es| - 1]) then before + [es[|es| - 1]] else before
  }

  function Average(sum: real, total: real): real { if total > 0.0 then sum / total else 0.0 }

  function ClampInt(x: int): int { if x > 100 then 100 else if x < 0 then 0 else x }

  function OverallScore(es: seq<Entry>): int {
    var avg := Average(WeightedSum(es), TotalWeight(es));
    ClampInt(Round(Clamp(0.0, 100.0, avg / 10.0 * 100.0)) - 5 * |HardMismatches(es)|)
  }

  datatype CompatibilityResult = CompatibilityResult(
    overallScore: int, coverage: real, matchedSignals: nat, hardMismatches: seq<Entry>, breakdown: seq<Entry>)

  function Result(a: SignalMap, b: SignalMap): CompatibilityResult {
    var es := Breakdown(COMPATIBILITY_KEYS, a, b);
    CompatibilityResult(OverallScore(es), |es| as real / 15.0, |es|, HardMismatches(es), es)
  }

  lemma SumsAppend(es: seq<Entry>, e: Entry)
    ensures WeightedSum(es + [e]) == WeightedSum(es) + Term(e)
    ensures TotalWeight(es + [e]) == TotalWeight(es) + Weight(e.key)
    ensures HardMismatches(es + [e]) == HardMismatches(es) + if IsHardMismatch(e) then [e] else []
  {
    assert (es + [e])[..|es|] == es;
  }

  /** The accumulating loop over the keys. */
  method AddUp(keys: seq<Signal>, a: SignalMap, b: SignalMap)
    returns (breakdown: seq<Entry>, hardMismatches: seq<Entry>, weightedSum: real, totalWeight: real)
    ensures breakdown == Breakdown(keys, a, b) && hardMismatches == HardMismatches(breakdown)
    ensures weightedSum == WeightedSum(breakdown) && totalWeight == TotalWeight(breakdown)
  {
    breakdown, hardMismatches, weightedSum, totalWeight := [], [], 0.0, 0.0;
    for i := 0 to |keys|
      invariant breakdown == Breakdown(keys[..i], a, b) && hardMismatches == HardMismatches(breakdown)
      invariant weightedSum == WeightedSum(breakdown) && totalWeight == TotalWeight(breakdown)
    {
      assert keys[..i + 1][..i] == keys[..i];
      if !Comparable(a, b, keys[i]) { continue; }
      var entry := EntryOf(a, b, keys[i]);
      SumsAppend(breakdown, entry);
      breakdown := breakdown + [entry];
      weightedSum := weightedSum + Weight(keys[i]) * entry.pairScore;
      totalWeight := totalWeight + Weight(keys[i]);
      if IsHardMismatch(entry) {
        hardMismatches := hardMismatches + [entry];
      }
    }
    assert keys[..|keys|] == keys;
  }

  method ComputeCompatibility(a: SignalMap, b: SignalMap) returns (r: CompatibilityResult)
    ensures r == Result(a, b)
  {
    var breakdown, hardMismatches, weightedSum, totalWeight := AddUp(COMPATIBILITY_KEYS, a, b);
    var avg := if totalWeight > 0.0 then weightedSum / totalWeight else 0.0;
    var overall := Round(Clamp(0.0, 100.0, avg / 10.0 * 100.0));
    r := CompatibilityResult(ClampInt(overall - 5 * |hardMismatches|), |breakdown| as real / 15.0,
                             |breakdown|, hardMismatches, breakdown);
  }

  // ---- similarity of one key

  lemma SquareMonotone(x: real, y: real)
    requires 0.0 <= x <= y
    ensures x * x <= y * y
  {
    assert y * y - x * x == (y - x) * (y + x);
  }

  lemma PairScoreAntitone(g: real, h: real)
    requires g <= h
    ensures 0.0 <= PairScoreOfGap(h) <= PairScoreOfGap(g) <= 10.0
  {
    var (m, n) := (Min(1.0, Max(0.0, g / 10.0)), Min(1.0, Max(0.0, h / 10.0)));
    SquareMonotone(1.0 - n, 1.0 - m);
  }

  /** Similarity in percent. */
  function Similarity(gap: real): real { if gap >= 10.0 then 0.0 else (10.0 - gap) * (10.0 - gap) }

  /** The similarity falls as the square of what the gap leaves of 10, and so is below the straight line between
      equal and ten apart, everywhere but at its ends. */
  lemma PairScoreIsSimilarity(gap: real)
    requires gap >= 0.0
    ensures 10.0 * PairScoreOfGap(gap) == Similarity(gap)
    ensures gap <= 10.0 ==> PairScoreOfGap(gap) <= 10.0 - gap
    ensures gap <= 10.0 ==> (PairScoreOfGap(gap) == 10.0 - gap <==> gap == 0.0 || gap == 10.0)
  {
    var left := if gap >= 10.0 then 0.0 else 1.0 - gap / 10.0;
    assert Min(1.0, Max(0.0, gap / 10.0)) == 1.0 - left;
    SquareMonotone(0.0, left);
    SquareMonotone(left, 1.0);
    assert PairScoreOfGap(gap) == 10.0 * (left * left);
    if gap <= 10.0 {
      assert 10.0 * left == 10.0 - gap;
      assert (10.0 - gap) * (10.0 - gap) == 100.0 * (left * left);
      OwnSquare(left);
    }
  }

  lemma OwnSquare(x: real)
    requires 0.0 <= x <= 1.0
    ensures x * x <= x && (x * x == x <==> x == 0.0 || x == 1.0)
  {
    var y := 1.0 - x;
    assert x - x * x == x * y;
    if 0.0 < x && 0.0 < y {
      PositiveProduct(x, y);
    }
  }

  lemma PositiveProduct(x: real, y: real)
    requires x > 0.0 && y > 0.0
    ensures x * y > 0.0
  {}

  // ---- the score as a balance

  /** What a key weighs, in tenths. */
  function Tenths(k: Signal): real {
    if k in {EmotionalDepth, FinancialMindset, Spirituality, LifestylePace} then 15.0
    else if k == ConflictStyle then 13.0
    else if k in {AttachmentSecurity, RelationshipClarity, PhysicalPriority, StatusOrientation} then 12.0
    else 10.0
  }

  lemma WeightInTenths(k: Signal)
    ensures Tenths(k) == 10.0 * Weight(k)
  {}

  /** How far the similarities of the compared keys pull away from m, all in all. */
  function Pull(keys: seq<Signal>, weights: Weights, a: SignalMap, b: SignalMap, m: real): real {
    if keys == [] then 0.0
    else
      var (before, k) := (Pull(keys[..|keys| - 1], weights, a, b, m), keys[|keys| - 1]);
      if k in a && k in b then before + PullOf(weights, k, Abs(a[k] - b[k]), m) else before
  }

  datatype Weights = ByKey | Equal

  function PullOf(weights: Weights, k: Signal, gap: real, m: real): real {
    (if weights == ByKey then Tenths(k) else 1.0) * (Similarity(gap) - m)
  }

  function Balance(sum: real, total: real, m: real): real { 100.0 * sum - 10.0 * m * total }

  lemma BalanceWithOneMore(w: real, t: real, score: real, similarity: real, m: real, sum: real, total: real)
    requires t == 10.0 * w && similarity == 10.0 * score
    ensures Balance(sum, total, m) + t * (similarity - m) == Balance(sum + w * score, total + w, m)
  {}

  lemma EntryPulls(sum: real, total: real, e: Entry, m: real)
    requires e.gap >= 0.0 && e.pairScore == PairScoreOfGap(e.gap)
    ensures Balance(sum, total, m) + PullOf(ByKey, e.key, e.gap, m)
         == Balance(sum + Term(e), total + Weight(e.key), m)
  {
    PairScoreIsSimilarity(e.gap);
    WeightInTenths(e.key);
    BalanceWithOneMore(Weight(e.key), Tenths(e.key), e.pairScore, Similarity(e.gap), m, sum, total);
  }

  function PulledBy(es: seq<Entry>, m: real): real { Balance(WeightedSum(es), TotalWeight(es), m) }

  lemma PulledByOneMore(es: seq<Entry>, e: Entry, m: real)
    requires e.gap >= 0.0 && e.pairScore == PairScoreOfGap(e.gap)
    ensures PulledBy(es + [e], m) == PulledBy(es, m) + PullOf(ByKey, e.key, e.gap, m)
  {
    SumsAppend(es, e);
    EntryPulls(WeightedSum(es), TotalWeight(es), e, m);
  }

  lemma {:induction false} PullIsBalance(keys: seq<Signal>, a: SignalMap, b: SignalMap, m: real)
    ensures Pull(keys, ByKey, a, b, m) == PulledBy(Breakdown(keys, a, b), m)
    decreases |keys|
  {
    if keys != [] {
      var (rest, k) := (keys[..|keys| - 1], keys[|keys| - 1]);
      PullIsBalance(rest, a, b, m);
      if Comparable(a, b, k) {
        PulledByOneMore(Breakdown(rest, a, b), EntryOf(a, b, k), m);
        assert Pull(keys, ByKey, a, b, m) == Pull(rest, ByKey, a, b, m) + PullOf(ByKey, k, Gap(a, b, k), m);
      }
    }
  }

  ghost function HardKeys(a: SignalMap, b: SignalMap): set<Signal> {
    set k | k in {EmotionalDepth, FinancialMindset, Spirituality, LifestylePace, PhysicalPriority, StatusOrientation}
            && k in a && k in b && Abs(a[k] - b[k]) >= 7.0
  }

  predicate Distinct(keys: seq<Signal>) { forall i, j | 0 <= i < j < |keys| :: keys[i] != keys[j] }

  ghost function HardAmong(keys: seq<Signal>, a: SignalMap, b: SignalMap): set<Signal> {
    set k | k in keys && k in HardKeys(a, b)
  }

  lemma HardAmongLast(keys: seq<Signal>, a: SignalMap, b: SignalMap)
    requires keys != [] && keys[|keys| - 1] !in keys[..|keys| - 1]
    ensures |HardAmong(keys, a, b)| ==
      |HardAmong(keys[..|keys| - 1], a, b)| + if keys[|keys| - 1] in HardKeys(a, b) then 1 else 0
  {
    var (rest, k) := (keys[..|keys| - 1], keys[|keys| - 1]);
    assert keys == rest + [k];
    assert HardAmong(keys, a, b) == HardAmong(rest, a, b) + if k in HardKeys(a, b) then {k} else {};
  }

  lemma LastIsHard(a: SignalMap, b: SignalMap, k: Signal)
    ensures k in HardKeys(a, b) <==> Comparable(a, b, k) && IsHardMismatch(EntryOf(a, b, k))
  {}

  lemma {:induction false} HardMismatchesAre(keys: seq<Signal>, a: SignalMap, b: SignalMap)
    requires Distinct(keys)
    ensures |HardMismatches(Breakdown(keys, a, b))| == |HardAmong(keys, a, b)|
    decreases |keys|
  {
    if keys != [] {
      var (rest, k) := (keys[..|keys| - 1], keys[|keys| - 1]);
      HardMismatchesAre(rest, a, b);
      HardAmongLast(keys, a, b);
      LastIsHard(a, b, k);
      if Comparable(a, b, k) {
        SumsAppend(Breakdown(rest, a, b), EntryOf(a, b, k));
      }
    }
  }

  lemma HardKeysAreCompared(a: SignalMap, b: SignalMap)
    ensures HardAmong(COMPATIBILITY_KEYS, a, b) == HardKeys(a, b)
  {
    var ks := COMPATIBILITY_KEYS;
    assert ks[3] == EmotionalDepth && ks[8] == FinancialMindset && ks[10] == Spirituality;
    assert ks[11] == LifestylePace && ks[12] == PhysicalPriority && ks[13] == StatusOrientation;
  }

  function NotBelowZero(x: int): int { if x < 0 then 0 else x }

  lemma ScoreOfSums(es: seq<Entry>) returns (m: real)
    requires Closer(es, es) && es != []
    ensures 0.0 <= m <= 100.0 && PulledBy(es, m) == 0.0
    ensures OverallScore(es) == NotBelowZero(Round(m) - 5 * |HardMismatches(es)|)
  {
    WeightedSumBounds(es);
    m := WeightedMean(WeightedSum(es), TotalWeight(es));
    RoundMonotone(0.0, m);
    RoundMonotone(m, 100.0);
  }

  lemma BreakdownBalances(keys: seq<Signal>, a: SignalMap, b: SignalMap) returns (m: real)
    requires Distinct(keys) && Breakdown(keys, a, b) != []
    ensures 0.0 <= m <= 100.0 && Pull(keys, ByKey, a, b, m) == 0.0
    ensures |HardMismatches(Breakdown(keys, a, b))| == |HardAmong(keys, a, b)|
    ensures OverallScore(Breakdown(keys, a, b)) == NotBelowZero(Round(m) - 5 * |HardAmong(keys, a, b)|)
  {
    SelfCloser(keys, a, b);
    m := ScoreOfSums(Breakdown(keys, a, b));
    PullIsBalance(keys, a, b, m);
    HardMismatchesAre(keys, a, b);
  }

  function Position(k: Signal): int {
    match k
    case Ambition => 0
    case SocialBattery => 1
    case HealthBodyConsciousness => 2
    case EmotionalDepth => 3
    case AttachmentSecurity => 4
    case Directness => 5
    case Independence => 6
    case Traditionalism => 7
    case FinancialMindset => 8
    case RelationshipClarity => 9
    case Spirituality => 10
    case LifestylePace => 11
    case PhysicalPriority => 12
    case StatusOrientation => 13
    case ConflictStyle => 14
    case _ => -1
  }

  lemma KeyAtItsPosition(i: nat)
    requires i < 15
    ensures Position(COMPATIBILITY_KEYS[i]) == i
  {}

  lemma KeysAreDistinct()
    ensures Distinct(COMPATIBILITY_KEYS)
  {
    forall i, j | 0 <= i < j < |COMPATIBILITY_KEYS|
      ensures COMPATIBILITY_KEYS[i] != COMPATIBILITY_KEYS[j]
    {
      KeyAtItsPosition(i);
      KeyAtItsPosition(j);
    }
  }

  /** The score is where the weighted similarities of the compared keys balance, rounded, less 5 for each hard
      key that is at least 7 apart, and no less than 0. */
  lemma ScoreBalances(a: SignalMap, b: SignalMap) returns (m: real)
    requires Result(a, b).matchedSignals > 0
    ensures 0.0 <= m <= 100.0 && Pull(COMPATIBILITY_KEYS, ByKey, a, b, m) == 0.0
    ensures |Result(a, b).hardMismatches| == |HardKeys(a, b)|
    ensures Result(a, b).overallScore == NotBelowZero(Round(m) - 5 * |HardKeys(a, b)|)
  {
    KeysAreDistinct();
    HardKeysAreCompared(a, b);
    m := BreakdownBalances(COMPATIBILITY_KEYS, a, b);
  }

  lemma WeightedMean(sum: real, total: real) returns (m: real)
    requires 0.0 <= sum <= 10.0 * total && total > 0.0
    ensures 0.0 <= m <= 100.0 && Balance(sum, total, m) == 0.0
    ensures m == Clamp(0.0, 100.0, Average(sum, total) / 10.0 * 100.0)
  {
    var avg := sum / total;
    assert avg * total == sum;
    QuotientMonotone(0.0, sum, total);
    QuotientMonotone(sum, 10.0 * total, total);
    FullAverage(total);
    m := 10.0 * avg;
    assert 10.0 * m * total == 100.0 * (avg * total);
  }

  lemma {:induction false} WeightedSumBounds(es: seq<Entry>)
    requires Closer(es, es)
    ensures 0.0 <= WeightedSum(es) <= 10.0 * TotalWeight(es) && (es != [] ==> TotalWeight(es) > 0.0)
    decreases |es|
  {
    if es != [] {
      var e := es[|es| - 1];
      assert CloserAt(e, e);
      WeightedSumBounds(es[..|es| - 1]);
      PairScoreAntitone(e.gap, e.gap);
      ProductMonotone(Weight(e.key), 0.0, e.pairScore);
      ProductMonotone(Weight(e.key), e.pairScore, 10.0);
    }
  }

  // ---- closer people score better

  /** The same keys, and every gap of the first list no larger. */
  ghost predicate Closer(es: seq<Entry>, fs: seq<Entry>) {
    |es| == |fs| && forall i | 0 <= i < |es| :: CloserAt(es[i], fs[i])
  }

  ghost predicate CloserAt(e: Entry, f: Entry) {
    && e.key == f.key && e.gap <= f.gap
    && e.pairScore == PairScoreOfGap(e.gap) && f.pairScore == PairScoreOfGap(f.gap)
  }

  lemma ProductMonotone(w: real, x: real, y: real)
    requires w >= 0.0 && x <= y
    ensures w * x <= w * y
  {
    assert w * y - w * x == w * (y - x);
  }

  lemma TermMonotone(e: Entry, f: Entry)
    requires CloserAt(e, f)
    ensures Term(f) <= Term(e)
  {
    PairScoreAntitone(e.gap, f.gap);
    ProductMonotone(Weight(e.key), f.pairScore, e.pairScore);
  }

  lemma {:induction false} CloserWeights(es: seq<Entry>, fs: seq<Entry>)
    requires Closer(es, fs)
    ensures TotalWeight(es) == TotalWeight(fs)
    decreases |es|
  {
    if es != [] {
      assert CloserAt(es[|es| - 1], fs[|fs| - 1]);
      CloserWeights(es[..|es| - 1], fs[..|fs| - 1]);
    }
  }

  lemma {:induction false} CloserSums(es: seq<Entry>, fs: seq<Entry>)
    requires Closer(es, fs)
    ensures WeightedSum(fs) <= WeightedSum(es)
    decreases |es|
  {
    if es != [] {
      var (e, f) := (es[|es| - 1], fs[|fs| - 1]);
      assert CloserAt(e, f);
      var (x, y) := (Term(e), Term(f));
      assert y <= x by { TermMonotone(e, f); }
      CloserSums(es[..|es| - 1], fs[..|fs| - 1]);
    }
  }

  lemma {:induction false} CloserHardMismatches(es: seq<Entry>, fs: seq<Entry>)
    requires Closer(es, fs)
    ensures |HardMismatches(es)| <= |HardMismatches(fs)|
    decreases |es|
  {
    if es != [] {
      assert CloserAt(es[|es| - 1], fs[|fs| - 1]);
      CloserHardMismatches(es[..|es| - 1], fs[..|fs| - 1]);
    }
  }

  lemma QuotientMonotone(x: real, y: real, t: real)
    requires x <= y && t > 0.0
    ensures x / t <= y / t
  {
    assert y / t - x / t == (y - x) / t;
  }

  lemma RoundedClampMonotone(x: real, y: real)
    requires x <= y
    ensures Round(Clamp(0.0, 100.0, x / 10.0 * 100.0)) <= Round(Clamp(0.0, 100.0, y / 10.0 * 100.0))
  {
    RoundMonotone(Clamp(0.0, 100.0, x / 10.0 * 100.0), Clamp(0.0, 100.0, y / 10.0 * 100.0));
  }

  lemma CloserScoresBetter(es: seq<Entry>, fs: seq<Entry>)
    requires Closer(es, fs)
    ensures OverallScore(fs) <= OverallScore(es)
  {
    CloserWeights(es, fs);
    CloserSums(es, fs);
    CloserHardMismatches(es, fs);
    if TotalWeight(es) > 0.0 {
      QuotientMonotone(WeightedSum(fs), WeightedSum(es), TotalWeight(es));
    }
    RoundedClampMonotone(Average(WeightedSum(fs), TotalWeight(fs)), Average(WeightedSum(es), TotalWeight(es)));
  }

  /** For each of the keys, both pairs of people have both values or neither pair has. */
  ghost predicate SameComparable(keys: seq<Signal>, a: SignalMap, b: SignalMap, c: SignalMap, d: SignalMap) {
    forall k | k in keys :: Comparable(a, b, k) <==> Comparable(c, d, k)
  }

  ghost predicate NoLargerGaps(keys: seq<Signal>, a: SignalMap, b: SignalMap, c: SignalMap, d: SignalMap) {
    forall k | k in keys && Comparable(a, b, k) && Comparable(c, d, k) :: Gap(a, b, k) <= Gap(c, d, k)
  }

  lemma {:induction false} BreakdownCloser(keys: seq<Signal>, a: SignalMap, b: SignalMap, c: SignalMap, d: SignalMap)
    requires SameComparable(keys, a, b, c, d) && NoLargerGaps(keys, a, b, c, d)
    ensures Closer(Breakdown(keys, a, b), Breakdown(keys, c, d))
    decreases |keys|
  {
    if keys != [] {
      BreakdownCloser(keys[..|keys| - 1], a, b, c, d);
      assert keys[|keys| - 1] in keys;
    }
  }

  /** Two pairs of people with the same comparable signals among those compared: if no gap of the first pair
      is larger, it scores no worse, has no more hard mismatches and the same coverage. */
  lemma ResultMonotone(a: SignalMap, b: SignalMap, c: SignalMap, d: SignalMap)
    requires SameComparable(COMPATIBILITY_KEYS, a, b, c, d) && NoLargerGaps(COMPATIBILITY_KEYS, a, b, c, d)
    ensures Result(c, d).overallScore <= Result(a, b).overallScore
    ensures |Result(a, b).hardMismatches| <= |Result(c, d).hardMismatches|
    ensures Result(a, b).matchedSignals == Result(c, d).matchedSignals && Result(a, b).coverage == Result(c, d).coverage
  {
    BreakdownCloser(COMPATIBILITY_KEYS, a, b, c, d);
    CloserScoresBetter(Result(a, b).breakdown, Result(c, d).breakdown);
    CloserHardMismatches(Result(a, b).breakdown, Result(c, d).breakdown);
  }

  // ---- swapping sides

  function Mirrored(es: seq<Entry>): (r: seq<Entry>)
    ensures |r| == |es|
  {
    seq(|es|, i requires 0 <= i < |es| => es[i].(self := es[i].partner, partner := es[i].self))
  }

  lemma {:induction false} BreakdownSwapped(keys: seq<Signal>, a: SignalMap, b: SignalMap)
    ensures Breakdown(keys, b, a) == Mirrored(Breakdown(keys, a, b))
    decreases |keys|
  {
    if keys != [] {
      BreakdownSwapped(keys[..|keys| - 1], a, b);
    }
  }

  lemma {:induction false} MirroredHardMismatches(es: seq<Entry>)
    ensures HardMismatches(Mirrored(es)) == Mirrored(HardMismatches(es))
    decreases |es|
  {
    if es != [] {
      MirroredHardMismatches(es[..|es| - 1]);
      assert Mirrored(es)[..|es| - 1] == Mirrored(es[..|es| - 1]);
    }
  }

  lemma {:induction false} BreakdownIsScored(keys: seq<Signal>, a: SignalMap, b: SignalMap)
    ensures forall i | 0 <= i < |Breakdown(keys, a, b)| ::
      var e := Breakdown(keys, a, b)[i]; e.pairScore == PairScoreOfGap(e.gap) && e.gap >= 0.0
    decreases |keys|
  {
    if keys != [] {
      BreakdownIsScored(keys[..|keys| - 1], a, b);
    }
  }

  /** Swapping the two sides mirrors the entries and changes no number. */
  lemma ResultSwapped(a: SignalMap, b: SignalMap)
    ensures
      var (r, s) := (Result(a, b), Result(b, a));
      && r.overallScore == s.overallScore && r.coverage == s.coverage && r.matchedSignals == s.matchedSignals
      && s.breakdown == Mirrored(r.breakdown) && s.hardMismatches == Mirrored(r.hardMismatches)
  {
    var es := Breakdown(COMPATIBILITY_KEYS, a, b);
    BreakdownSwapped(COMPATIBILITY_KEYS, a, b);
    MirroredHardMismatches(es);
    BreakdownIsScored(COMPATIBILITY_KEYS, a, b);
    assert Closer(es, Mirrored(es)) && Closer(Mirrored(es), es);
    CloserScoresBetter(es, Mirrored(es));
    CloserScoresBetter(Mirrored(es), es);
  }

  // ---- equal people

  lemma {:induction false} NoGapSums(es: seq<Entry>)
    requires forall i | 0 <= i < |es| :: es[i].gap == 0.0 && es[i].pairScore == PairScoreOfGap(es[i].gap)
    ensures WeightedSum(es) == 10.0 * TotalWeight(es) && HardMismatches(es) == []
    ensures es != [] ==> TotalWeight(es) > 0.0
    ensures TotalWeight(es) >= 0.0
    decreases |es|
  {
    if es != [] {
      NoGapSums(es[..|es| - 1]);
      PairScoreAntitone(0.0, 0.0);
    }
  }

  /** Where both people have a value for one of the keys, they have the same one. */
  ghost predicate EqualOn(keys: seq<Signal>, a: SignalMap, b: SignalMap) {
    forall k | k in keys && Comparable(a, b, k) :: a[k] == b[k]
  }

  lemma {:induction false} EqualBreakdown(keys: seq<Signal>, a: SignalMap, b: SignalMap)
    requires EqualOn(keys, a, b)
    ensures forall i | 0 <= i < |Breakdown(keys, a, b)| :: Breakdown(keys, a, b)[i].gap == 0.0
    decreases |keys|
  {
    if keys != [] {
      assert forall i | 0 <= i < |keys| - 1 :: keys[i] == keys[..|keys| - 1][i];
      EqualBreakdown(keys[..|keys| - 1], a, b);
      assert keys[|keys| - 1] in keys;
    }
  }

  lemma FullAverage(t: real)
    requires t > 0.0
    ensures Average(10.0 * t, t) == 10.0
  {}

  lemma NoGapsScoreFull(es: seq<Entry>)
    requires es != [] && WeightedSum(es) == 10.0 * TotalWeight(es) && TotalWeight(es) > 0.0 && HardMismatches(es) == []
    ensures OverallScore(es) == 100
  {
    FullAverage(TotalWeight(es));
  }

  /** People who agree on every key that both have score 100, given at least one such key; the score always
      lies in 0..100. */
  lemma EqualPeopleScoreFull(a: SignalMap, b: SignalMap)
    ensures 0 <= Result(a, b).overallScore <= 100
    ensures EqualOn(COMPATIBILITY_KEYS, a, b) && Result(a, b).matchedSignals > 0 ==>
      Result(a, b).overallScore == 100 && Result(a, b).hardMismatches == []
    ensures Result(a, b).matchedSignals == 0 ==> Result(a, b).overallScore == 0
  {
    var es := Breakdown(COMPATIBILITY_KEYS, a, b);
    if EqualOn(COMPATIBILITY_KEYS, a, b) && es != [] {
      EqualBreakdown(COMPATIBILITY_KEYS, a, b);
      BreakdownIsScored(COMPATIBILITY_KEYS, a, b);
      NoGapSums(es);
      NoGapsScoreFull(es);
    }
  }

  // ---- the entries

  /** Both people have the key, and the entry says so. */
  ghost predicate EntryIsRight(e: Entry, keys: seq<Signal>, a: SignalMap, b: SignalMap) {
    && e.key in keys && e.key in a && e.key in b && e.self == a[e.key] && e.partner == b[e.key]
    && (e.gap == e.self - e.partner || e.gap == e.partner - e.self) && e.gap >= 0.0
    && 10.0 * e.pairScore == Similarity(e.gap)
  }

  lemma EntryIsRightFor(keys: seq<Signal>, a: SignalMap, b: SignalMap, k: Signal)
    requires k in keys && Comparable(a, b, k)
    ensures EntryIsRight(EntryOf(a, b, k), keys, a, b)
  {
    PairScoreIsSimilarity(Gap(a, b, k));
  }

  lemma RightInMore(es: seq<Entry>, keys: seq<Signal>, more: seq<Signal>, a: SignalMap, b: SignalMap)
    requires forall e | e in es :: EntryIsRight(e, keys, a, b)
    requires forall k | k in keys :: k in more
    ensures forall e | e in es :: EntryIsRight(e, more, a, b)
  {}

  lemma {:induction false} BreakdownIsRight(keys: seq<Signal>, a: SignalMap, b: SignalMap)
    ensures forall e | e in Breakdown(keys, a, b) :: EntryIsRight(e, keys, a, b)
    decreases |keys|
  {
    if keys != [] {
      var (rest, k) := (keys[..|keys| - 1], keys[|keys| - 1]);
      BreakdownIsRight(rest, a, b);
      RightInMore(Breakdown(rest, a, b), rest, keys, a, b);
      if Comparable(a, b, k) {
        EntryIsRightFor(keys, a, b, k);
      }
    }
  }

  ghost function Compared(keys: seq<Signal>, a: SignalMap, b: SignalMap): set<Signal> {
    set k | k in keys && k in a && k in b
  }

  lemma {:induction false} BreakdownCounts(keys: seq<Signal>, a: SignalMap, b: SignalMap)
    requires Distinct(keys)
    ensures |Breakdown(keys, a, b)| == |Compared(keys, a, b)|
    decreases |keys|
  {
    if keys != [] {
      BreakdownCounts(keys[..|keys| - 1], a, b);
      ComparedLast(keys, a, b);
    }
  }

  lemma ComparedLast(keys: seq<Signal>, a: SignalMap, b: SignalMap)
    requires keys != [] && keys[|keys| - 1] !in keys[..|keys| - 1]
    ensures |Compared(keys, a, b)| ==
      |Compared(keys[..|keys| - 1], a, b)| + if Comparable(a, b, keys[|keys| - 1]) then 1 else 0
  {
    var (rest, k) := (keys[..|keys| - 1], keys[|keys| - 1]);
    assert keys == rest + [k];
    assert Compared(keys, a, b) == Compared(rest, a, b) + if Comparable(a, b, k) then {k} else {};
  }

  lemma {:induction false} HardMismatchesAreHard(es: seq<Entry>, keys: seq<Signal>, a: SignalMap, b: SignalMap)
    requires forall e | e in es :: EntryIsRight(e, keys, a, b)
    ensures forall e | e in HardMismatches(es) :: e in es && e.key in HardKeys(a, b)
    decreases |es|
  {
    if es != [] {
      HardMismatchesAreHard(es[..|es| - 1], keys, a, b);
      assert es[|es| - 1] in es;
    }
  }

  /** What the result lists: one right entry for each key that both people have, their share of the fifteen, and
      of the entries those that are hard. */
  lemma ResultLists(a: SignalMap, b: SignalMap)
    ensures
      var r := Result(a, b);
      && (forall e | e in r.breakdown :: EntryIsRight(e, COMPATIBILITY_KEYS, a, b))
      && r.matchedSignals == |r.breakdown| == |Compared(COMPATIBILITY_KEYS, a, b)|
      && 15.0 * r.coverage == r.matchedSignals as real
      && (forall e | e in r.hardMismatches :: e in r.breakdown && e.key in HardKeys(a, b))
  {
    KeysAreDistinct();
    BreakdownIsRight(COMPATIBILITY_KEYS, a, b);
    BreakdownCounts(COMPATIBILITY_KEYS, a, b);
    HardMismatchesAreHard(Result(a, b).breakdown, COMPATIBILITY_KEYS, a, b);
  }

  // ---- values alignment: the tier-1 keys, unweighted

  function PlainSum(es: seq<Entry>): real {
    if es == [] then 0.0 else PlainSum(es[..|es| - 1]) + es[|es| - 1].pairScore
  }

  function ValuesAlignment(a: SignalMap, b: SignalMap): int {
    var es := Breakdown(TIER1_KEYS, a, b);
    if es == [] then 0 else Round(PlainSum(es) / |es| as real / 10.0 * 100.0)
  }

  /** The loop of computeValuesAlignment. */
  method AddUpPairScores(keys: seq<Signal>, a: SignalMap, b: SignalMap) returns (sum: real, count: nat)
    ensures sum == PlainSum(Breakdown(keys, a, b)) && count == |Breakdown(keys, a, b)|
  {
    sum, count := 0.0, 0;
    for i := 0 to |keys|
      invariant sum == PlainSum(Breakdown(keys[..i], a, b)) && count == |Breakdown(keys[..i], a, b)|
    {
      assert keys[..i + 1][..i] == keys[..i];
      if !Comparable(a, b, keys[i]) { continue; }
      var before := Breakdown(keys[..i], a, b);
      assert (before + [EntryOf(a, b, keys[i])])[..|before|] == before;
      sum := sum + PairScoreOfGap(Gap(a, b, keys[i]));
      count := count + 1;
    }
    assert keys[..|keys|] == keys;
  }

  method ComputeValuesAlignment(a: SignalMap, b: SignalMap) returns (r: int)
    ensures r == ValuesAlignment(a, b)
  {
    var sum, count := AddUpPairScores(TIER1_KEYS, a, b);
    r := if count == 0 then 0 else Round(sum / count as real / 10.0 * 100.0);
  }

  lemma {:induction false} PlainSumBounds(es: seq<Entry>, fs: seq<Entry>)
    requires Closer(es, fs)
    ensures 0.0 <= PlainSum(fs) <= PlainSum(es) <= 10.0 * |es| as real
    decreases |es|
  {
    if es != [] {
      assert CloserAt(es[|es| - 1], fs[|fs| - 1]);
      PlainSumBounds(es[..|es| - 1], fs[..|fs| - 1]);
      PairScoreAntitone(es[|es| - 1].gap, fs[|fs| - 1].gap);
    }
  }

  lemma {:induction false} FullPlainSum(es: seq<Entry>)
    requires forall i | 0 <= i < |es| :: es[i].pairScore == 10.0
    ensures PlainSum(es) == 10.0 * |es| as real
    decreases |es|
  {
    if es != [] {
      FullPlainSum(es[..|es| - 1]);
    }
  }

  lemma RoundedAverage(sum: real, n: nat)
    requires n > 0 && 0.0 <= sum <= 10.0 * n as real
    ensures 0 <= Round(sum / n as real / 10.0 * 100.0) <= 100
    ensures sum == 10.0 * n as real ==> Round(sum / n as real / 10.0 * 100.0) == 100
  {
    var avg := sum / n as real;
    QuotientMonotone(0.0, sum, n as real);
    QuotientMonotone(sum, 10.0 * n as real, n as real);
    assert (10.0 * n as real) / n as real == 10.0;
    assert 0.0 <= avg <= 10.0;
  }

  function AverageScore(sum: real, n: nat): int {
    if n == 0 then 0 else Round(sum / n as real / 10.0 * 100.0)
  }

  lemma AverageScoreMonotone(x: real, y: real, n: nat)
    requires x <= y
    ensures AverageScore(x, n) <= AverageScore(y, n)
  {
    if n > 0 {
      QuotientMonotone(x, y, n as real);
      RoundMonotone(x / n as real / 10.0 * 100.0, y / n as real / 10.0 * 100.0);
    }
  }

  lemma AverageScoreInRange(sum: real, n: nat)
    requires 0.0 <= sum <= 10.0 * n as real
    ensures 0 <= AverageScore(sum, n) <= 100
    ensures n > 0 && sum == 10.0 * n as real ==> AverageScore(sum, n) == 100
  {
    if n > 0 {
      RoundedAverage(sum, n);
    }
  }

  lemma AlignmentIsAverage(a: SignalMap, b: SignalMap)
    ensures
      var es := Breakdown(TIER1_KEYS, a, b);
      ValuesAlignment(a, b) == AverageScore(PlainSum(es), |es|)
  {}

  lemma SelfCloser(keys: seq<Signal>, a: SignalMap, b: SignalMap)
    ensures Closer(Breakdown(keys, a, b), Breakdown(keys, a, b))
  {
    BreakdownIsScored(keys, a, b);
  }

  /** Values alignment lies in 0..100. */
  lemma AlignmentInRange(a: SignalMap, b: SignalMap)
    ensures 0 <= ValuesAlignment(a, b) <= 100
  {
    var es := Breakdown(TIER1_KEYS, a, b);
    SelfCloser(TIER1_KEYS, a, b);
    PlainSumBounds(es, es);
    AverageScoreInRange(PlainSum(es), |es|);
    AlignmentIsAverage(a, b);
  }

  lemma PlainSumOneMore(es: seq<Entry>, e: Entry)
    ensures PlainSum(es + [e]) == PlainSum(es) + e.pairScore
  {
    assert (es + [e])[..|es|] == es;
  }

  function PlainBalance(sum: real, n: real, m: real): real { 10.0 * sum - m * n }

  lemma PlainBalanceOneMore(sum: real, n: real, m: real, k: Signal, gap: real)
    requires gap >= 0.0
    ensures PlainBalance(sum, n, m) + PullOf(Equal, k, gap, m) == PlainBalance(sum + PairScoreOfGap(gap), n + 1.0, m)
  {
    PairScoreIsSimilarity(gap);
  }

  lemma {:induction false} PullIsPlain(keys: seq<Signal>, a: SignalMap, b: SignalMap, m: real)
    ensures
      var es := Breakdown(keys, a, b);
      Pull(keys, Equal, a, b, m) == PlainBalance(PlainSum(es), |es| as real, m)
    decreases |keys|
  {
    if keys != [] {
      var (rest, k) := (keys[..|keys| - 1], keys[|keys| - 1]);
      PullIsPlain(rest, a, b, m);
      if Comparable(a, b, k) {
        var before := Breakdown(rest, a, b);
        PlainSumOneMore(before, EntryOf(a, b, k));
        PlainBalanceOneMore(PlainSum(before), |before| as real, m, k, Gap(a, b, k));
      }
    }
  }

  lemma PlainMean(sum: real, n: real) returns (m: real)
    requires n > 0.0
    ensures PlainBalance(sum, n, m) == 0.0 && m == sum / n / 10.0 * 100.0
  {
    var avg := sum / n;
    m := 10.0 * avg;
    assert avg * n == sum;
    assert m * n == 10.0 * (avg * n);
  }

  /** It is where the similarities of the tier-1 keys balance, each weighing the same. */
  lemma AlignmentBalances(a: SignalMap, b: SignalMap) returns (m: real)
    requires Breakdown(TIER1_KEYS, a, b) != []
    ensures Pull(TIER1_KEYS, Equal, a, b, m) == 0.0 && ValuesAlignment(a, b) == Round(m)
  {
    var es := Breakdown(TIER1_KEYS, a, b);
    m := PlainMean(PlainSum(es), |es| as real);
    PullIsPlain(TIER1_KEYS, a, b, m);
  }

  /** It does not fall when tier-1 gaps shrink. */
  lemma AlignmentMonotone(a: SignalMap, b: SignalMap, c: SignalMap, d: SignalMap)
    requires SameComparable(TIER1_KEYS, a, b, c, d) && NoLargerGaps(TIER1_KEYS, a, b, c, d)
    ensures ValuesAlignment(c, d) <= ValuesAlignment(a, b)
  {
    var (es, fs) := (Breakdown(TIER1_KEYS, a, b), Breakdown(TIER1_KEYS, c, d));
    BreakdownCloser(TIER1_KEYS, a, b, c, d);
    PlainSumBounds(es, fs);
    AverageScoreMonotone(PlainSum(fs), PlainSum(es), |es|);
    AlignmentIsAverage(a, b);
    AlignmentIsAverage(c, d);
  }

  /** It is symmetric. */
  lemma AlignmentSwapped(a: SignalMap, b: SignalMap)
    ensures ValuesAlignment(a, b) == ValuesAlignment(b, a)
  {
    SwappedGaps(a, b);
    AlignmentMonotone(a, b, b, a);
    AlignmentMonotone(b, a, a, b);
  }

  lemma SwappedGaps(a: SignalMap, b: SignalMap)
    ensures SameComparable(TIER1_KEYS, a, b, b, a) && NoLargerGaps(TIER1_KEYS, a, b, b, a)
    ensures SameComparable(TIER1_KEYS, b, a, a, b) && NoLargerGaps(TIER1_KEYS, b, a, a, b)
  {}

  /** It is full for people who agree on every tier-1 key that both have, given one. */
  lemma AlignmentFull(a: SignalMap, b: SignalMap)
    requires EqualOn(TIER1_KEYS, a, b) && Breakdown(TIER1_KEYS, a, b) != []
    ensures ValuesAlignment(a, b) == 100
  {
    var es := Breakdown(TIER1_KEYS, a, b);
    EqualBreakdown(TIER1_KEYS, a, b);
    BreakdownIsScored(TIER1_KEYS, a, b);
    PairScoreAntitone(0.0, 0.0);
    FullPlainSum(es);
    AverageScoreInRange(PlainSum(es), |es|);
    AlignmentIsAverage(a, b);
  }
}
