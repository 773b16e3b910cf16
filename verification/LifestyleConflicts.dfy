/** Structural conflicts between two people's ways of life. */
module LifestyleConflicts {
  import opened Basics
  import opened Signals
  import CompatibilityScore

  datatype Conflict = PaceMismatch | StatusGap | SocialExposureGap | ScheduleConflict | ValuesMismatch

  datatype Result = Result(conflicts: seq<Conflict>, severity: int)

  function GapOf(a: SignalMap, b: SignalMap, k: Signal): Option<real> {
    if Comparable(a, b, k) then Some(Gap(a, b, k)) else None
  }

  predicate Exceeds(gap: Option<real>, limit: real) { gap.Some? && gap.value > limit }

  function Points(gap: Option<real>, limit: real): real {
    if Exceeds(gap, limit) then 2.0 + (gap.value - limit) * 0.5 else 0.0
  }

  /** The tier-1 totals over the keys that both people have. */
  datatype Tally = Tally(sum: real, compared: nat, wide: nat)

  function TallyOf(keys: seq<Signal>, a: SignalMap, b: SignalMap): Tally {
    if keys == [] then Tally(0.0, 0, 0)
    else
      var (t, gap) := (TallyOf(keys[..|keys| - 1], a, b), GapOf(a, b, keys[|keys| - 1]));
      if gap.None? then t
      else Tally(t.sum + gap.value, t.compared + 1, if gap.value > 3.0 then t.wide + 1 else t.wide)
  }

  function MeanGap(t: Tally): real { if t.compared > 0 then t.sum / t.compared as real else 0.0 }

  predicate ValuesClash(t: Tally) { t.wide >= 2 || MeanGap(t) > 3.5 }

  function ValuesPoints(t: Tally): real {
    if ValuesClash(t) then 2.0 + Min(2.0, Max(0.0, (MeanGap(t) - 3.0) * 0.5)) else 0.0
  }

  function If(c: Conflict, found: bool): seq<Conflict> { if found then [c] else [] }

  function Tier1(a: SignalMap, b: SignalMap): Tally { TallyOf(CompatibilityScore.TIER1_KEYS, a, b) }

  function GapConflicts(a: SignalMap, b: SignalMap): seq<Conflict> {
    If(PaceMismatch, Exceeds(GapOf(a, b, LifestylePace), 3.0)) +
    If(StatusGap, Exceeds(GapOf(a, b, StatusOrientation), 4.0)) +
    If(SocialExposureGap, Exceeds(GapOf(a, b, SocialBattery), 4.0)) +
    If(ScheduleConflict, Exceeds(GapOf(a, b, Independence), 4.0))
  }

  function GapPoints(a: SignalMap, b: SignalMap): real {
    Points(GapOf(a, b, LifestylePace), 3.0) + Points(GapOf(a, b, StatusOrientation), 4.0) +
    Points(GapOf(a, b, SocialBattery), 4.0) + Points(GapOf(a, b, Independence), 4.0)
  }

  function SeverityOf(points: real): int {
    var rounded := Round(points);
    if rounded < 0 then 0 else if rounded > 10 then 10 else rounded
  }

  function Conflicts(a: SignalMap, b: SignalMap): Result {
    var t := Tier1(a, b);
    Result(GapConflicts(a, b) + If(ValuesMismatch, ValuesClash(t)), SeverityOf(GapPoints(a, b) + ValuesPoints(t)))
  }

  /** The first four rules. */
  method DetectGaps(a: SignalMap, b: SignalMap) returns (conflicts: seq<Conflict>, points: real)
    ensures conflicts == GapConflicts(a, b) && points == GapPoints(a, b)
  {
    conflicts, points := [], 0.0;
    var paceGap := GapOf(a, b, LifestylePace);
    if paceGap.Some? && paceGap.value > 3.0 {
      conflicts, points := conflicts + [PaceMismatch], points + (2.0 + (paceGap.value - 3.0) * 0.5);
    }
    var statusGap := GapOf(a, b, StatusOrientation);
    if statusGap.Some? && statusGap.value > 4.0 {
      conflicts, points := conflicts + [StatusGap], points + (2.0 + (statusGap.value - 4.0) * 0.5);
    }
    var socialGap := GapOf(a, b, SocialBattery);
    if socialGap.Some? && socialGap.value > 4.0 {
      conflicts, points := conflicts + [SocialExposureGap], points + (2.0 + (socialGap.value - 4.0) * 0.5);
    }
    var independenceGap := GapOf(a, b, Independence);
    if independenceGap.Some? && independenceGap.value > 4.0 {
      conflicts, points := conflicts + [ScheduleConflict], points + (2.0 + (independenceGap.value - 4.0) * 0.5);
    }
  }

  /** The loop over the tier-1 keys. */
  method TallyKeys(keys: seq<Signal>, a: SignalMap, b: SignalMap) returns (sum: real, compared: nat, wide: nat)
    ensures Tally(sum, compared, wide) == TallyOf(keys, a, b)
  {
    sum, compared, wide := 0.0, 0, 0;
    for i := 0 to |keys|
      invariant Tally(sum, compared, wide) == TallyOf(keys[..i], a, b)
    {
      assert keys[..i + 1][..i] == keys[..i];
      var g := GapOf(a, b, keys[i]);
      if g.Some? {
        sum, compared := sum + g.value, compared + 1;
        if g.value > 3.0 {
          wide := wide + 1;
        }
      }
    }
    assert keys[..|keys|] == keys;
  }

  method DetectLifestyleConflicts(a: SignalMap, b: SignalMap) returns (r: Result)
    ensures r == Conflicts(a, b)
  {
    var conflicts, points := DetectGaps(a, b);
    var sum, compared, wide := TallyKeys(CompatibilityScore.TIER1_KEYS, a, b);
    var mean := if compared > 0 then sum / compared as real else 0.0;
    if wide >= 2 || mean > 3.5 {
      conflicts := conflicts + [ValuesMismatch];
      points := points + (2.0 + Min(2.0, Max(0.0, (mean - 3.0) * 0.5)));
    }
    var rounded := Round(points);
    r := Result(conflicts, if rounded < 0 then 0 else if rounded > 10 then 10 else rounded);
  }

  // ---- swapping the two people

  lemma GapSwapped(a: SignalMap, b: SignalMap, k: Signal)
    ensures GapOf(a, b, k) == GapOf(b, a, k)
  {}

  lemma {:induction false} TallySwapped(keys: seq<Signal>, a: SignalMap, b: SignalMap)
    ensures TallyOf(keys, a, b) == TallyOf(keys, b, a)
    decreases |keys|
  {
    if keys != [] {
      TallySwapped(keys[..|keys| - 1], a, b);
      GapSwapped(a, b, keys[|keys| - 1]);
    }
  }

  lemma ConflictsSwapped(a: SignalMap, b: SignalMap)
    ensures Conflicts(a, b) == Conflicts(b, a)
  {
    TallySwapped(CompatibilityScore.TIER1_KEYS, a, b);
    GapSwapped(a, b, LifestylePace);
    GapSwapped(a, b, StatusOrientation);
    GapSwapped(a, b, SocialBattery);
    GapSwapped(a, b, Independence);
  }

  // ---- severity against conflicts

  lemma PointsPerConflict(gap: Option<real>, limit: real, c: Conflict)
    ensures Points(gap, limit) >= 2.0 * |If(c, Exceeds(gap, limit))| as real
    ensures If(c, Exceeds(gap, limit)) == [] ==> Points(gap, limit) == 0.0
  {}

  lemma GapPointsPerConflict(a: SignalMap, b: SignalMap)
    ensures GapPoints(a, b) >= 2.0 * |GapConflicts(a, b)| as real
    ensures GapConflicts(a, b) == [] ==> GapPoints(a, b) == 0.0
  {
    PointsPerConflict(GapOf(a, b, LifestylePace), 3.0, PaceMismatch);
    PointsPerConflict(GapOf(a, b, StatusOrientation), 4.0, StatusGap);
    PointsPerConflict(GapOf(a, b, SocialBattery), 4.0, SocialExposureGap);
    PointsPerConflict(GapOf(a, b, Independence), 4.0, ScheduleConflict);
  }

  lemma SeverityAtLeast(points: real, n: nat)
    requires points >= 2.0 * n as real
    ensures SeverityOf(points) >= (if n <= 5 then 2 * n else 10)
  {
    RoundMonotone((2 * n) as real, points);
  }

  /** No severity without a conflict, and two points for each. */
  lemma SeverityCountsConflicts(a: SignalMap, b: SignalMap)
    ensures
      var r := Conflicts(a, b);
      && 0 <= r.severity <= 10
      && r.severity >= 2 * |r.conflicts|
      && (r.severity == 0 <==> r.conflicts == [])
  {
    var t := Tier1(a, b);
    GapPointsPerConflict(a, b);
    SeverityAtLeast(GapPoints(a, b) + ValuesPoints(t), |Conflicts(a, b).conflicts|);
  }

  // ---- the conflicts and the severity, told from the signals

  predicate Over(a: SignalMap, b: SignalMap, k: Signal, limit: real) {
    k in a && k in b && (a[k] - b[k] > limit || b[k] - a[k] > limit)
  }

  /** How far the gaps of the keys that both people have exceed m, all in all. */
  function Excess(keys: seq<Signal>, a: SignalMap, b: SignalMap, m: real): real {
    if keys == [] then 0.0
    else
      var (before, k) := (Excess(keys[..|keys| - 1], a, b, m), keys[|keys| - 1]);
      if k in a && k in b then before + (Abs(a[k] - b[k]) - m) else before
  }

  lemma {:induction false} ExcessIsTally(keys: seq<Signal>, a: SignalMap, b: SignalMap, m: real)
    ensures
      var t := TallyOf(keys, a, b);
      Excess(keys, a, b, m) == Beyond(t.sum, t.compared as real, m)
    decreases |keys|
  {
    if keys != [] {
      var (rest, k) := (keys[..|keys| - 1], keys[|keys| - 1]);
      var t := TallyOf(rest, a, b);
      ExcessIsTally(rest, a, b, m);
      if Comparable(a, b, k) {
        BeyondWithOneMore(t.sum, t.compared as real, m, Gap(a, b, k));
      }
    }
  }

  lemma BeyondWithOneMore(sum: real, n: real, m: real, gap: real)
    ensures Beyond(sum + gap, n + 1.0, m) == Beyond(sum, n, m) + (gap - m)
  {}

  ghost function WideKeys(keys: seq<Signal>, a: SignalMap, b: SignalMap): set<Signal> {
    set k | k in keys && Over(a, b, k, 3.0)
  }

  predicate Distinct(keys: seq<Signal>) { forall i, j | 0 <= i < j < |keys| :: keys[i] != keys[j] }

  lemma {:induction false} WideIsCounted(keys: seq<Signal>, a: SignalMap, b: SignalMap)
    requires Distinct(keys)
    ensures TallyOf(keys, a, b).wide == |WideKeys(keys, a, b)|
    decreases |keys|
  {
    if keys != [] {
      var (rest, k) := (keys[..|keys| - 1], keys[|keys| - 1]);
      WideIsCounted(rest, a, b);
      assert keys == rest + [k];
      assert WideKeys(keys, a, b) == WideKeys(rest, a, b) + if Over(a, b, k, 3.0) then {k} else {};
    }
  }

  function Beyond(sum: real, n: real, m: real): real { sum - m * n }

  lemma MeanIsZero(sum: real, n: real, limit: real)
    requires n > 0.0
    ensures Beyond(sum, n, sum / n) == 0.0
    ensures sum / n > limit <==> Beyond(sum, n, limit) > 0.0
  {
    var m := sum / n;
    assert m * n == sum;
    PositiveTimes(m - limit, n);
    assert (m - limit) * n == m * n - limit * n;
  }

  lemma PositiveTimes(x: real, n: real)
    requires n > 0.0
    ensures x > 0.0 <==> x * n > 0.0
  {}

  lemma {:induction false} NothingCompared(keys: seq<Signal>, a: SignalMap, b: SignalMap)
    ensures TallyOf(keys, a, b).compared == 0 ==> TallyOf(keys, a, b).sum == 0.0
    decreases |keys|
  {
    if keys != [] {
      NothingCompared(keys[..|keys| - 1], a, b);
    }
  }

  /** Two tier-1 keys more than 3 apart, or a mean gap of more than 3.5. */
  ghost predicate ValuesApart(a: SignalMap, b: SignalMap) {
    var keys := CompatibilityScore.TIER1_KEYS;
    |WideKeys(keys, a, b)| >= 2 || Excess(keys, a, b, 3.5) > 0.0
  }

  lemma TierKeysAreDistinct()
    ensures Distinct(CompatibilityScore.TIER1_KEYS)
  {}

  lemma ValuesClashIff(a: SignalMap, b: SignalMap)
    ensures ValuesClash(Tier1(a, b)) <==> ValuesApart(a, b)
  {
    var keys := CompatibilityScore.TIER1_KEYS;
    TierKeysAreDistinct();
    WideIsCounted(keys, a, b);
    ExcessIsTally(keys, a, b, 3.5);
    NothingCompared(keys, a, b);
    var t := Tier1(a, b);
    if t.compared > 0 {
      MeanIsZero(t.sum, t.compared as real, 3.5);
    }
  }

  /** Exactly when each conflict is found; none is found twice, and they come in a fixed order. */
  lemma ConflictIff(a: SignalMap, b: SignalMap)
    ensures
      var found := Conflicts(a, b).conflicts;
      && (PaceMismatch in found <==> Over(a, b, LifestylePace, 3.0))
      && (StatusGap in found <==> Over(a, b, StatusOrientation, 4.0))
      && (SocialExposureGap in found <==> Over(a, b, SocialBattery, 4.0))
      && (ScheduleConflict in found <==> Over(a, b, Independence, 4.0))
      && (ValuesMismatch in found <==> ValuesApart(a, b))
      && InPlace(found)
  {
    ValuesClashIff(a, b);
    Listed(Exceeds(GapOf(a, b, LifestylePace), 3.0), Exceeds(GapOf(a, b, StatusOrientation), 4.0),
           Exceeds(GapOf(a, b, SocialBattery), 4.0), Exceeds(GapOf(a, b, Independence), 4.0), ValuesClash(Tier1(a, b)));
  }

  function List(pace: bool, status: bool, social: bool, schedule: bool, values: bool): seq<Conflict> {
    If(PaceMismatch, pace) + If(StatusGap, status) + If(SocialExposureGap, social) + If(ScheduleConflict, schedule) +
    If(ValuesMismatch, values)
  }

  lemma Listed(pace: bool, status: bool, social: bool, schedule: bool, values: bool)
    ensures
      var found := List(pace, status, social, schedule, values);
      && (PaceMismatch in found <==> pace) && (StatusGap in found <==> status)
      && (SocialExposureGap in found <==> social) && (ScheduleConflict in found <==> schedule)
      && (ValuesMismatch in found <==> values)
      && InPlace(found)
  {
    var one := ListedNext([], PaceMismatch, pace, {});
    var two := ListedNext(one, StatusGap, status, {PaceMismatch});
    var three := ListedNext(two, SocialExposureGap, social, {PaceMismatch, StatusGap});
    var four := ListedNext(three, ScheduleConflict, schedule, {PaceMismatch, StatusGap, SocialExposureGap});
    var five :=
      ListedNext(four, ValuesMismatch, values, {PaceMismatch, StatusGap, SocialExposureGap, ScheduleConflict});
    assert one == If(PaceMismatch, pace);
  }

  lemma ListedNext(found: seq<Conflict>, c: Conflict, add: bool, earlier: set<Conflict>) returns (r: seq<Conflict>)
    requires InPlace(found) && forall d | d in found :: d in earlier
    requires forall d | d in earlier :: Place(d) < Place(c)
    ensures r == found + If(c, add) && InPlace(r)
    ensures c in r <==> add
    ensures forall d | d in earlier :: d in r <==> d in found
    ensures forall d | d in r :: d in earlier + {c}
  {
    r := found + If(c, add);
    forall i, j | 0 <= i < j < |r|
      ensures Place(r[i]) < Place(r[j])
    {
      assert r[i] in found;
    }
  }

  predicate InPlace(found: seq<Conflict>) { forall i, j | 0 <= i < j < |found| :: Place(found[i]) < Place(found[j]) }

  function Place(c: Conflict): int {
    match c
    case PaceMismatch => 1
    case StatusGap => 2
    case SocialExposureGap => 3
    case ScheduleConflict => 4
    case ValuesMismatch => 5
  }

  /** Twice what one gap adds: four, and what it exceeds its limit by. */
  function TwicePoints(a: SignalMap, b: SignalMap, k: Signal, limit: real): real {
    if Over(a, b, k, limit) then 4.0 + (Abs(a[k] - b[k]) - limit) else 0.0
  }

  lemma PointsOfKey(a: SignalMap, b: SignalMap, k: Signal, limit: real)
    requires limit >= 0.0
    ensures 2.0 * Points(GapOf(a, b, k), limit) == TwicePoints(a, b, k, limit)
  {}

  lemma PointsOfKeys(a: SignalMap, b: SignalMap)
    ensures 2.0 * GapPoints(a, b) ==
      TwicePoints(a, b, LifestylePace, 3.0) + TwicePoints(a, b, StatusOrientation, 4.0) +
      TwicePoints(a, b, SocialBattery, 4.0) + TwicePoints(a, b, Independence, 4.0)
  {
    PointsOfKey(a, b, LifestylePace, 3.0);
    PointsOfKey(a, b, StatusOrientation, 4.0);
    PointsOfKey(a, b, SocialBattery, 4.0);
    PointsOfKey(a, b, Independence, 4.0);
  }

  /** Twice what a clash of values adds: four, and up to four more for a mean gap over 3. */
  function TwiceForValues(m: real): real { if m <= 3.0 then 4.0 else if m >= 7.0 then 8.0 else m + 1.0 }

  lemma PointsOfValues(t: Tally)
    ensures 2.0 * ValuesPoints(t) == if ValuesClash(t) then TwiceForValues(MeanGap(t)) else 0.0
  {}

  lemma MeanGapIs(a: SignalMap, b: SignalMap)
    ensures Excess(CompatibilityScore.TIER1_KEYS, a, b, MeanGap(Tier1(a, b))) == 0.0
  {
    var (t, keys) := (Tier1(a, b), CompatibilityScore.TIER1_KEYS);
    ExcessIsTally(keys, a, b, MeanGap(t));
    NothingCompared(keys, a, b);
    if t.compared > 0 {
      MeanIsZero(t.sum, t.compared as real, 0.0);
    }
  }

  lemma SeverityOfTwice(points: real, twice: real)
    requires 2.0 * points == twice && points >= 0.0
    ensures SeverityOf(points) == if Round(twice / 2.0) > 10 then 10 else Round(twice / 2.0)
  {
    SeverityAtLeast(points, 0);
  }

  /** The severity is half the points of the conflicts found, rounded, and at most 10; m is the mean tier-1 gap. */
  lemma SeverityIs(a: SignalMap, b: SignalMap) returns (m: real)
    ensures Excess(CompatibilityScore.TIER1_KEYS, a, b, m) == 0.0
    ensures
      var twice :=
        TwicePoints(a, b, LifestylePace, 3.0) + TwicePoints(a, b, StatusOrientation, 4.0) +
        TwicePoints(a, b, SocialBattery, 4.0) + TwicePoints(a, b, Independence, 4.0) +
        if ValuesApart(a, b) then TwiceForValues(m) else 0.0;
      Conflicts(a, b).severity == if Round(twice / 2.0) > 10 then 10 else Round(twice / 2.0)
  {
    m := MeanGap(Tier1(a, b));
    MeanGapIs(a, b);
    ValuesClashIff(a, b);
    PointsOfKeys(a, b);
    PointsOfValues(Tier1(a, b));
    GapPointsPerConflict(a, b);
    var points := GapPoints(a, b) + ValuesPoints(Tier1(a, b));
    SeverityOfTwice(points, 2.0 * GapPoints(a, b) + 2.0 * ValuesPoints(Tier1(a, b)));
  }

  // ---- wider gaps

  predicate NoWider(g: Option<real>, h: Option<real>) {
    match (g, h)
    case (None, None) => true
    case (Some(x), Some(y)) => x <= y
    case _ => false
  }

  /** The keys of the first four rules. */
  const GAP_KEYS: seq<Signal> := [LifestylePace, StatusOrientation, SocialBattery, Independence]

  /** Among these keys, the second pair has those of the first, each with a gap that is no smaller. */
  ghost predicate FurtherApart(keys: seq<Signal>, a: SignalMap, b: SignalMap, c: SignalMap, d: SignalMap) {
    forall k | k in keys :: NoWider(GapOf(a, b, k), GapOf(c, d, k))
  }

  lemma {:induction false} TallyGrows(keys: seq<Signal>, a: SignalMap, b: SignalMap, c: SignalMap, d: SignalMap)
    requires FurtherApart(keys, a, b, c, d)
    ensures
      var (t, u) := (TallyOf(keys, a, b), TallyOf(keys, c, d));
      t.sum <= u.sum && t.compared == u.compared && t.wide <= u.wide
    decreases |keys|
  {
    if keys != [] {
      var k := keys[|keys| - 1];
      assert k in keys;
      TallyGrows(keys[..|keys| - 1], a, b, c, d);
      assert NoWider(GapOf(a, b, k), GapOf(c, d, k));
    }
  }

  lemma QuotientGrows(x: real, y: real, n: real)
    requires x <= y && n > 0.0
    ensures x / n <= y / n
  {}

  lemma ValuesGrow(t: Tally, u: Tally)
    requires t.sum <= u.sum && t.compared == u.compared && t.wide <= u.wide
    ensures ValuesPoints(t) <= ValuesPoints(u)
    ensures ValuesClash(t) ==> ValuesClash(u)
  {
    if t.compared > 0 {
      QuotientGrows(t.sum, u.sum, t.compared as real);
    }
  }

  lemma PointsGrow(g: Option<real>, h: Option<real>, limit: real)
    requires NoWider(g, h)
    ensures Points(g, limit) <= Points(h, limit)
    ensures Exceeds(g, limit) ==> Exceeds(h, limit)
  {}

  lemma GapKeysGrow(a: SignalMap, b: SignalMap, c: SignalMap, d: SignalMap)
    requires FurtherApart(GAP_KEYS, a, b, c, d)
    ensures NoWider(GapOf(a, b, LifestylePace), GapOf(c, d, LifestylePace))
    ensures NoWider(GapOf(a, b, StatusOrientation), GapOf(c, d, StatusOrientation))
    ensures NoWider(GapOf(a, b, SocialBattery), GapOf(c, d, SocialBattery))
    ensures NoWider(GapOf(a, b, Independence), GapOf(c, d, Independence))
  {
    assert GAP_KEYS[0] in GAP_KEYS && GAP_KEYS[1] in GAP_KEYS && GAP_KEYS[2] in GAP_KEYS && GAP_KEYS[3] in GAP_KEYS;
  }

  lemma GapPointsGrow(a: SignalMap, b: SignalMap, c: SignalMap, d: SignalMap)
    requires FurtherApart(GAP_KEYS, a, b, c, d)
    ensures GapPoints(a, b) <= GapPoints(c, d)
  {
    GapKeysGrow(a, b, c, d);
    PointsGrow(GapOf(a, b, LifestylePace), GapOf(c, d, LifestylePace), 3.0);
    PointsGrow(GapOf(a, b, StatusOrientation), GapOf(c, d, StatusOrientation), 4.0);
    PointsGrow(GapOf(a, b, SocialBattery), GapOf(c, d, SocialBattery), 4.0);
    PointsGrow(GapOf(a, b, Independence), GapOf(c, d, Independence), 4.0);
  }

  lemma GapConflictsGrow(a: SignalMap, b: SignalMap, c: SignalMap, d: SignalMap)
    requires FurtherApart(GAP_KEYS, a, b, c, d)
    ensures forall x | x in GapConflicts(a, b) :: x in GapConflicts(c, d)
  {
    GapKeysGrow(a, b, c, d);
  }

  /** Growing every gap that the rules read loses no conflict and lowers no severity. */
  lemma SeverityMonotone(a: SignalMap, b: SignalMap, c: SignalMap, d: SignalMap)
    requires FurtherApart(GAP_KEYS + CompatibilityScore.TIER1_KEYS, a, b, c, d)
    ensures Conflicts(a, b).severity <= Conflicts(c, d).severity
    ensures forall x | x in Conflicts(a, b).conflicts :: x in Conflicts(c, d).conflicts
  {
    assert FurtherApart(GAP_KEYS, a, b, c, d) && FurtherApart(CompatibilityScore.TIER1_KEYS, a, b, c, d);
    TallyGrows(CompatibilityScore.TIER1_KEYS, a, b, c, d);
    ValuesGrow(Tier1(a, b), Tier1(c, d));
    GapPointsGrow(a, b, c, d);
    GapConflictsGrow(a, b, c, d);
    RoundMonotone(GapPoints(a, b) + ValuesPoints(Tier1(a, b)), GapPoints(c, d) + ValuesPoints(Tier1(c, d)));
  }
}
