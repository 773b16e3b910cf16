/** The final score of a pair: a weighted blend of alignments, weighted by coverage, less friction. */
module Scoring {
  import opened Basics
  import opened Signals
  import opened Friction

  /** The five alignments that enter the blend. */
  datatype Alignments = Alignments(aToB: real, bToA: real, relationshipFit: real, values: real, interests: real)

  function Compatibility(x: Alignments): real {
    0.28 * x.aToB + 0.28 * x.bToA + 0.24 * x.relationshipFit + 0.12 * x.values + 0.08 * x.interests
  }

  function ScoreCoverageFactor(coveragePercent: real): real {
    var c := Clamp(0.0, 100.0, coveragePercent);
    if c <= 50.0 then 0.9 + (0.06 * c) / 50.0 else 0.96 + (0.04 * (c - 50.0)) / 50.0
  }

  function CoveragePercent(comparable: nat, total: int): int {
    if total <= 0 then 0 else Round(100.0 * (comparable as real / total as real))
  }

  function FrictionPenalty(friction: real): real {
    var base := Min(25.0, friction * 3.0);
    if friction >= 4.0 then base * 0.9 else base
  }

  function RawScore(compatibility: real, coverageFactor: real, penalty: real): real {
    compatibility * coverageFactor - penalty * 0.7
  }

  function FinalScore(raw: real): int {
    var r := Round(raw);
    if r > 100 then 100 else if r < 0 then 0 else r
  }

  function Score(x: Alignments, coveragePercent: real, friction: real): int {
    FinalScore(RawScore(Compatibility(x), ScoreCoverageFactor(coveragePercent), FrictionPenalty(friction)))
  }

  // ---- the parts

  predicate NoMoreThan(x: Alignments, y: Alignments) {
    && x.aToB <= y.aToB && x.bToA <= y.bToA && x.relationshipFit <= y.relationshipFit
    && x.values <= y.values && x.interests <= y.interests
  }

  predicate AllBetween(x: Alignments, lo: real, hi: real) {
    NoMoreThan(Alignments(lo, lo, lo, lo, lo), x) && NoMoreThan(x, Alignments(hi, hi, hi, hi, hi))
  }

  lemma CompatibilityMonotone(x: Alignments, y: Alignments)
    requires NoMoreThan(x, y)
    ensures Compatibility(x) <= Compatibility(y)
  {}

  /** The weights sum to 1, so the blend lies between its inputs. */
  lemma CompatibilityBetween(x: Alignments, lo: real, hi: real)
    requires AllBetween(x, lo, hi)
    ensures lo <= Compatibility(x) <= hi
  {
    CompatibilityMonotone(Alignments(lo, lo, lo, lo, lo), x);
    CompatibilityMonotone(x, Alignments(hi, hi, hi, hi, hi));
  }

  /** What a change of one alignment is worth in the blend. */
  lemma BlendShares(x: Alignments, d: real)
    ensures Compatibility(x.(aToB := x.aToB + d)) == Compatibility(x) + 28.0 * d / 100.0
    ensures Compatibility(x.(bToA := x.bToA + d)) == Compatibility(x) + 28.0 * d / 100.0
    ensures Compatibility(x.(relationshipFit := x.relationshipFit + d)) == Compatibility(x) + 24.0 * d / 100.0
    ensures Compatibility(x.(values := x.values + d)) == Compatibility(x) + 12.0 * d / 100.0
    ensures Compatibility(x.(interests := x.interests + d)) == Compatibility(x) + 8.0 * d / 100.0
  {}

  /** The coverage factor climbs steadily from 0.9 at none to 0.96 at half and on to 1 at full coverage. */
  lemma CoverageFactorIsBroken(c: real, d: real)
    ensures ScoreCoverageFactor(0.0) == 0.9 && ScoreCoverageFactor(50.0) == 0.96 && ScoreCoverageFactor(100.0) == 1.0
    ensures c <= 0.0 ==> ScoreCoverageFactor(c) == 0.9
    ensures c >= 100.0 ==> ScoreCoverageFactor(c) == 1.0
    ensures 0.0 <= c <= d <= 50.0 ==> ScoreCoverageFactor(d) - ScoreCoverageFactor(c) == 3.0 * (d - c) / 2500.0
    ensures 50.0 <= c <= d <= 100.0 ==> ScoreCoverageFactor(d) - ScoreCoverageFactor(c) == 2.0 * (d - c) / 2500.0
  {}

  /** What the frictions that the table can give cost, times ten. */
  const PENALTIES: seq<nat> := [0, 30, 60, 90, 108, 135, 162, 189, 216, 225, 225]

  lemma PenaltyOfFriction(f: nat)
    requires f <= 10
    ensures 10.0 * FrictionPenalty(f as real) == PENALTIES[f] as real
  {}

  /** The nearest whole number, within 0..100. */
  lemma FinalScoreIsNearest(raw: real)
    ensures 0 <= FinalScore(raw) <= 100
    ensures raw < 0.5 ==> FinalScore(raw) == 0
    ensures raw >= 99.5 ==> FinalScore(raw) == 100
    ensures 0.0 <= raw <= 100.0 ==> FinalScore(raw) as real - 0.5 <= raw < FinalScore(raw) as real + 0.5
  {
    RoundIsNearest(raw);
  }

  lemma CoverageFactorMonotone(c: real, d: real)
    requires c <= d
    ensures 0.9 <= ScoreCoverageFactor(c) <= ScoreCoverageFactor(d) <= 1.0
  {}

  /** Exactly when less friction costs no more: the penalty falls at 4, so it fails for a friction
      below 4 that is more than nine tenths of one at or above 4. */
  lemma PenaltyMonotoneIff(f: real, g: real)
    requires f <= g
    ensures FrictionPenalty(f) <= FrictionPenalty(g) <==> !(f < 4.0 <= g && 10.0 * f > 9.0 * g)
  {}

  lemma PenaltyMonotoneOnIntegers(f: int, g: int)
    requires f <= g
    ensures FrictionPenalty(f as real) <= FrictionPenalty(g as real)
  {
    PenaltyMonotoneIff(f as real, g as real);
  }

  lemma PenaltyBounds(f: real)
    requires f >= 0.0
    ensures 0.0 <= FrictionPenalty(f) <= 22.5
  {}

  lemma FinalScoreMonotone(r: real, s: real)
    requires r <= s
    ensures 0 <= FinalScore(r) <= FinalScore(s) <= 100
  {
    RoundMonotone(r, s);
  }

  lemma SignOfProduct(x: real, k: real)
    requires k >= 0.0
    ensures x >= 0.0 ==> x * k >= 0.0
    ensures x <= 0.0 ==> x * k <= 0.0
  {}

  lemma ProductsMonotone(x: real, y: real, j: real, k: real)
    requires x <= y && 0.0 <= j <= k && (j == k || y >= 0.0)
    ensures x * j <= y * k
  {
    SignOfProduct(y - x, j);
    assert (y - x) * j == y * j - x * j;
    SignOfProduct(y, k - j);
    assert y * (k - j) == y * k - y * j;
  }

  // ---- the whole score

  lemma RawScoreMonotone(m: real, n: real, j: real, k: real, p: real, q: real)
    requires m <= n && 0.0 <= j <= k && (j == k || n >= 0.0) && q <= p
    ensures RawScore(m, j, p) <= RawScore(n, k, q)
  {
    ProductsMonotone(m, n, j, k);
    var (x, y) := (m * j, n * k);
    assert x <= y;
    assert RawScore(m, j, p) == x - p * 0.7;
    assert RawScore(n, k, q) == y - q * 0.7;
  }

  /** A blend below zero scores zero: clamping makes up for the coverage factor, which pulls it up. */
  lemma NegativeBlendScoresZero(x: Alignments, c: real, f: real)
    requires Compatibility(x) < 0.0 && f >= 0.0
    ensures Score(x, c, f) == 0
  {
    var (m, factor, penalty) := (Compatibility(x), ScoreCoverageFactor(c), FrictionPenalty(f));
    CoverageFactorMonotone(c, c);
    PenaltyBounds(f);
    SignOfProduct(m, factor);
    var product := m * factor;
    assert RawScore(m, factor, penalty) == product - penalty * 0.7 <= 0.0;
    RoundMonotone(RawScore(m, factor, penalty), 0.0);
  }

  lemma NonnegativeBlendMonotone(x: Alignments, y: Alignments, c: real, d: real, f: int, g: int)
    requires NoMoreThan(x, y) && c <= d && g <= f && Compatibility(y) >= 0.0
    ensures 0 <= Score(x, c, f as real) <= Score(y, d, g as real) <= 100
  {
    CompatibilityMonotone(x, y);
    CoverageFactorMonotone(c, d);
    PenaltyMonotoneOnIntegers(g, f);
    var (m, n, j, k) := (Compatibility(x), Compatibility(y), ScoreCoverageFactor(c), ScoreCoverageFactor(d));
    var (p, q) := (FrictionPenalty(f as real), FrictionPenalty(g as real));
    RawScoreMonotone(m, n, j, k, p, q);
    FinalScoreMonotone(RawScore(m, j, p), RawScore(n, k, q));
  }

  /** The score does not fall when an alignment rises, when coverage rises, or when friction, a whole
      number that is not negative, falls. */
  lemma ScoreMonotone(x: Alignments, y: Alignments, c: real, d: real, f: nat, g: nat)
    requires NoMoreThan(x, y) && c <= d && g <= f
    ensures 0 <= Score(x, c, f as real) <= Score(y, d, g as real) <= 100
  {
    if Compatibility(y) < 0.0 {
      CompatibilityMonotone(x, y);
      NegativeBlendScoresZero(x, c, f as real);
    } else {
      NonnegativeBlendMonotone(x, y, c, d, f, g);
    }
  }

  lemma WeightedFromBelow(m: real, factor: real, lo: real)
    requires 0.0 <= lo <= m && 0.9 <= factor
    ensures m * factor >= 0.9 * lo
  {
    ProductsMonotone(lo, m, 0.9, factor);
  }

  lemma WeightedFromAbove(m: real, factor: real, hi: real)
    requires m <= hi && 0.0 <= factor <= 1.0
    ensures m * factor <= if hi >= 0.0 then hi else 0.0
  {
    if m >= 0.0 {
      ProductsMonotone(m, hi, factor, 1.0);
    } else {
      SignOfProduct(m, factor);
    }
  }

  /** Clamping makes up for the cases in which the bounds are negative. */
  lemma FinalScoreBetween(raw: real, lo: real, hi: real)
    requires lo >= 0.0 ==> raw >= 0.9 * lo - 15.75
    requires raw <= if hi >= 0.0 then hi else 0.0
    ensures FinalScore(0.9 * lo - 15.75) <= FinalScore(raw) <= FinalScore(hi)
  {
    FinalScoreMonotone(0.9 * lo - 15.75, if lo >= 0.0 then raw else 0.0);
    FinalScoreMonotone(raw, if hi >= 0.0 then hi else 0.0);
    FinalScoreMonotone(hi, hi);
  }

  lemma RawScoreBetween(m: real, factor: real, penalty: real, lo: real, hi: real)
    requires lo <= m <= hi && 0.9 <= factor <= 1.0 && 0.0 <= penalty <= 22.5
    ensures lo >= 0.0 ==> RawScore(m, factor, penalty) >= 0.9 * lo - 15.75
    ensures RawScore(m, factor, penalty) <= if hi >= 0.0 then hi else 0.0
  {
    var x := m * factor;
    WeightedFromAbove(m, factor, hi);
    if lo >= 0.0 {
      WeightedFromBelow(m, factor, lo);
    }
    assert RawScore(m, factor, penalty) == x - penalty * 0.7;
  }

  /** The score lies between what the worst coverage and friction leave of the least alignment and the
      greatest alignment, rounded and clamped. */
  lemma ScoreBetween(x: Alignments, c: real, f: real, lo: real, hi: real)
    requires AllBetween(x, lo, hi) && f >= 0.0
    ensures FinalScore(0.9 * lo - 15.75) <= Score(x, c, f) <= FinalScore(hi)
  {
    var (m, factor, penalty) := (Compatibility(x), ScoreCoverageFactor(c), FrictionPenalty(f));
    CompatibilityBetween(x, lo, hi);
    CoverageFactorMonotone(c, c);
    PenaltyBounds(f);
    RawScoreBetween(m, factor, penalty, lo, hi);
    FinalScoreBetween(RawScore(m, factor, penalty), lo, hi);
  }

  /** Both bounds are reached. */
  lemma ScoreBoundsAreTight(m: real)
    ensures
      var x := Alignments(m, m, m, m, m);
      Score(x, 0.0, 10.0) == FinalScore(0.9 * m - 15.75) && Score(x, 100.0, 0.0) == FinalScore(m)
  {
    CompatibilityBetween(Alignments(m, m, m, m, m), m, m);
  }

  // ---- pairs of people

  function PairScore(x: Alignments, coveragePercent: real, a: SignalMap, b: SignalMap): int {
    Score(x, coveragePercent, FrictionOf(RULES, a, b) as real)
  }

  /** Swapping the two people, and with them the two directed alignments, keeps the score. */
  lemma PairScoreSwapped(x: Alignments, c: real, a: SignalMap, b: SignalMap)
    ensures PairScore(x, c, a, b) == PairScore(x.(aToB := x.bToA, bToA := x.aToB), c, b, a)
  {
    FrictionSwapped(a, b);
  }

  /** A pair for which every tension of another pair holds too scores no better, all else equal. */
  lemma MoreTensionsScoreNoBetter(x: Alignments, c: real, a: SignalMap, b: SignalMap, a': SignalMap, b': SignalMap)
    requires FiresToo(RULES, a, b, a', b')
    ensures PairScore(x, c, a', b') <= PairScore(x, c, a, b)
  {
    FrictionMonotone(RULES, a, b, a', b');
    ScoreMonotone(x, x, c, c, FrictionOf(RULES, a', b'), FrictionOf(RULES, a, b));
  }

  /** It is the whole percentage nearest to the share of comparable signals. */
  lemma CoveragePercentIsNearest(comparable: nat, total: int)
    requires total > 0
    ensures
      var (p, n) := (CoveragePercent(comparable, total) as real, total as real);
      (p - 0.5) * n <= 100.0 * comparable as real < (p + 0.5) * n
  {
    var (p, n, x) := (CoveragePercent(comparable, total) as real, total as real, comparable as real);
    RoundIsNearest(100.0 * (x / n));
    ShareBetween(x, n, p - 0.5, p + 0.5, 100.0 * (x / n));
  }

  lemma ShareBetween(x: real, n: real, lo: real, hi: real, percent: real)
    requires n > 0.0 && percent == 100.0 * (x / n) && lo <= percent < hi
    ensures lo * n <= 100.0 * x < hi * n
  {
    assert percent * n == 100.0 * x;
    TimesPositive(lo, percent, n);
    TimesPositive(percent, hi, n);
  }

  lemma TimesPositive(x: real, y: real, n: real)
    requires n > 0.0
    ensures x <= y ==> x * n <= y * n
    ensures x < y ==> x * n < y * n
  {
    SignOfProduct(y - x, n);
    assert (y - x) * n == y * n - x * n;
    if x < y {
      PositiveProduct(y - x, n);
    }
  }

  lemma PositiveProduct(x: real, n: real)
    requires x > 0.0 && n > 0.0
    ensures x * n > 0.0
  {}

  /** The percentage of comparable signals is a percentage. */
  lemma CoveragePercentInRange(comparable: nat, total: int)
    requires comparable <= total
    ensures 0 <= CoveragePercent(comparable, total) <= 100
  {
    if total > 0 {
      var share := comparable as real / total as real;
      assert 0.0 <= share <= 1.0;
      RoundMonotone(0.0, 100.0 * share);
      RoundMonotone(100.0 * share, 100.0);
    }
  }
}
