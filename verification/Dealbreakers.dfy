/** Rules for differences that two people are unlikely to get over, and what they take off a score. */
module Dealbreakers {
  import opened Basics
  import opened Signals

  datatype Motivation = FamilyBuilder | EmotionalConnection | StatusPower | FreedomIndependence

  datatype Person = Person(
    signals: SignalMap, occupationClass: Option<string>, visibilityNeed: Option<real>, lifeStage: Option<real>,
    motivation: Option<Motivation>)

  datatype Code =
    | RelationshipClarityMismatch | UnpredictabilityRoutineMismatch | VisibilityNeedMismatch
    | EmotionalDepthFloor | StatusGapSensitive | LifestageGap

  datatype Severity = Hard | StrongFlag | Penalty | Warning

  /** What the explanation of a finding shows of the two people, first person first. */
  datatype Evidence =
    | Values(a: real, b: real)
    | Routine(aOcc: string, bOcc: string, aRoutine: bool, bRoutine: bool)
    | Motivations(aMotivation: Option<Motivation>, bMotivation: Option<Motivation>)

  datatype Dealbreaker = Dealbreaker(code: Code, severity: Severity, evidence: Evidence)

  function Or<T>(x: Option<T>, fallback: T): T { if x.Some? then x.value else fallback }

  function Findings(code: Code, severity: Option<Severity>, evidence: Evidence): seq<Dealbreaker> {
    if severity.Some? then [Dealbreaker(code, severity.value, evidence)] else []
  }

  function When(fires: bool, severity: Severity): Option<Severity> { if fires then Some(severity) else None }

  // ---- the rules

  function ClaritySeverity(a: real, b: real): Option<Severity> {
    var gap := Abs(a - b);
    if gap >= 6.0 && Min(a, b) <= 3.0 && Max(a, b) >= 9.0 then Some(Hard)
    else if gap >= 5.0 && (a >= 8.0 || b >= 8.0) then Some(Penalty)
    else if gap >= 4.0 && (a >= 7.0 || b >= 7.0) then Some(Warning)
    else None
  }

  function StatusSeverity(a: real, b: real): Option<Severity> {
    var (gap, high) := (Abs(a - b), a >= 8.0 || b >= 8.0);
    if high && gap >= 6.0 && Min(a, b) <= 3.0 && Max(a, b) >= 9.0 then Some(Hard)
    else if high && gap >= 4.0 then Some(Penalty)
    else if (a >= 7.0 || b >= 7.0) && gap >= 4.0 then Some(Warning)
    else None
  }

  predicate Unpredictable(p: Person) {
    Or(p.occupationClass, "") == "SHIFT_UNPREDICTABLE" || Or(p.occupationClass, "") == "TRAVEL_HEAVY"
  }

  predicate PrefersRoutine(p: Person) {
    GetOr(p.signals, LifestylePace, 5.0) <= 3.0 && GetOr(p.signals, Directness, 5.0) >= 7.0
  }

  predicate HighAndLow(x: real, y: real) { x >= 8.0 && y <= 2.0 }

  predicate PowerAgainstBond(x: Option<Motivation>, y: Option<Motivation>) {
    x == Some(StatusPower) && (y == Some(FamilyBuilder) || y == Some(EmotionalConnection))
  }

  function ClarityFindings(a: Person, b: Person): seq<Dealbreaker> {
    var (x, y) := (GetOr(a.signals, RelationshipClarity, 5.0), GetOr(b.signals, RelationshipClarity, 5.0));
    Findings(RelationshipClarityMismatch, ClaritySeverity(x, y), Values(x, y))
  }

  function RoutineFindings(a: Person, b: Person): seq<Dealbreaker> {
    Findings(UnpredictabilityRoutineMismatch,
             When((Unpredictable(a) && PrefersRoutine(b)) || (Unpredictable(b) && PrefersRoutine(a)), StrongFlag),
             Routine(Or(a.occupationClass, ""), Or(b.occupationClass, ""), PrefersRoutine(a), PrefersRoutine(b)))
  }

  function VisibilityFindings(a: Person, b: Person): seq<Dealbreaker> {
    var (x, y) := (Or(a.visibilityNeed, 5.0), Or(b.visibilityNeed, 5.0));
    Findings(VisibilityNeedMismatch, When(Abs(x - y) >= 6.0, StrongFlag), Values(x, y))
  }

  function DepthFindings(a: Person, b: Person): seq<Dealbreaker> {
    var (x, y) := (GetOr(a.signals, EmotionalDepth, 5.0), GetOr(b.signals, EmotionalDepth, 5.0));
    Findings(EmotionalDepthFloor, When(HighAndLow(x, y) || HighAndLow(y, x), Penalty), Values(x, y))
  }

  function StatusFindings(a: Person, b: Person): seq<Dealbreaker> {
    var (x, y) := (GetOr(a.signals, StatusOrientation, 5.0), GetOr(b.signals, StatusOrientation, 5.0));
    Findings(StatusGapSensitive, StatusSeverity(x, y), Values(x, y))
  }

  function LifeStageFindings(a: Person, b: Person): seq<Dealbreaker> {
    var (x, y) := (Or(a.lifeStage, 5.0), Or(b.lifeStage, 5.0));
    Findings(LifestageGap, When(Abs(x - y) >= 4.0, StrongFlag), Values(x, y))
  }

  function MotivationFindings(a: Person, b: Person): seq<Dealbreaker> {
    Findings(VisibilityNeedMismatch,
             When(PowerAgainstBond(a.motivation, b.motivation) || PowerAgainstBond(b.motivation, a.motivation), Hard),
             Motivations(a.motivation, b.motivation))
  }

  function SoftFindings(a: Person, b: Person): seq<Dealbreaker> {
    ClarityFindings(a, b) + RoutineFindings(a, b) + VisibilityFindings(a, b) +
    DepthFindings(a, b) + StatusFindings(a, b) + LifeStageFindings(a, b)
  }

  function AllFindings(a: Person, b: Person): seq<Dealbreaker> { SoftFindings(a, b) + MotivationFindings(a, b) }

  /** The first two rules. */
  method EarlyFindings(a: Person, b: Person) returns (out: seq<Dealbreaker>)
    ensures out == ClarityFindings(a, b) + RoutineFindings(a, b)
  {
    out := [];
    var aClarity, bClarity := GetOr(a.signals, RelationshipClarity, 5.0), GetOr(b.signals, RelationshipClarity, 5.0);
    var clarityGap := Abs(aClarity - bClarity);
    if clarityGap >= 6.0 && Min(aClarity, bClarity) <= 3.0 && Max(aClarity, bClarity) >= 9.0 {
      out := out + [Dealbreaker(RelationshipClarityMismatch, Hard, Values(aClarity, bClarity))];
    } else if clarityGap >= 5.0 && (aClarity >= 8.0 || bClarity >= 8.0) {
      out := out + [Dealbreaker(RelationshipClarityMismatch, Penalty, Values(aClarity, bClarity))];
    } else if clarityGap >= 4.0 && (aClarity >= 7.0 || bClarity >= 7.0) {
      out := out + [Dealbreaker(RelationshipClarityMismatch, Warning, Values(aClarity, bClarity))];
    }
    var aRoutine, bRoutine := PrefersRoutine(a), PrefersRoutine(b);
    if (Unpredictable(a) && bRoutine) || (Unpredictable(b) && aRoutine) {
      out := out + [Dealbreaker(UnpredictabilityRoutineMismatch, StrongFlag,
                                Routine(Or(a.occupationClass, ""), Or(b.occupationClass, ""), aRoutine, bRoutine))];
    }
  }

  method MiddleFindings(a: Person, b: Person) returns (out: seq<Dealbreaker>)
    ensures out == VisibilityFindings(a, b) + DepthFindings(a, b)
  {
    out := [];
    var aVisibility, bVisibility := Or(a.visibilityNeed, 5.0), Or(b.visibilityNeed, 5.0);
    if Abs(aVisibility - bVisibility) >= 6.0 {
      out := out + [Dealbreaker(VisibilityNeedMismatch, StrongFlag, Values(aVisibility, bVisibility))];
    }
    var aDepth, bDepth := GetOr(a.signals, EmotionalDepth, 5.0), GetOr(b.signals, EmotionalDepth, 5.0);
    if (aDepth >= 8.0 && bDepth <= 2.0) || (bDepth >= 8.0 && aDepth <= 2.0) {
      out := out + [Dealbreaker(EmotionalDepthFloor, Penalty, Values(aDepth, bDepth))];
    }
  }

  method StatusRule(a: Person, b: Person) returns (out: seq<Dealbreaker>)
    ensures out == StatusFindings(a, b)
  {
    out := [];
    var aStatus, bStatus := Get(a.signals, StatusOrientation), Get(b.signals, StatusOrientation);
    var x, y := Or(aStatus, 5.0), Or(bStatus, 5.0);
    var statusGap := Abs(x - y);
    var high := (aStatus.Some? && aStatus.value >= 8.0) || (bStatus.Some? && bStatus.value >= 8.0);
    var raised := (aStatus.Some? && aStatus.value >= 7.0) || (bStatus.Some? && bStatus.value >= 7.0);
    if high && statusGap >= 6.0 && Min(x, y) <= 3.0 && Max(x, y) >= 9.0 {
      out := out + [Dealbreaker(StatusGapSensitive, Hard, Values(x, y))];
    } else if high && statusGap >= 4.0 {
      out := out + [Dealbreaker(StatusGapSensitive, Penalty, Values(x, y))];
    } else if raised && statusGap >= 4.0 {
      out := out + [Dealbreaker(StatusGapSensitive, Warning, Values(x, y))];
    }
  }

  method LateFindings(a: Person, b: Person) returns (out: seq<Dealbreaker>)
    ensures out == LifeStageFindings(a, b) + MotivationFindings(a, b)
  {
    out := [];
    var aLifeStage, bLifeStage := Or(a.lifeStage, 5.0), Or(b.lifeStage, 5.0);
    if Abs(aLifeStage - bLifeStage) >= 4.0 {
      out := out + [Dealbreaker(LifestageGap, StrongFlag, Values(aLifeStage, bLifeStage))];
    }
    if PowerAgainstBond(a.motivation, b.motivation) || PowerAgainstBond(b.motivation, a.motivation) {
      out := out + [Dealbreaker(VisibilityNeedMismatch, Hard, Motivations(a.motivation, b.motivation))];
    }
  }

  method ComputeDealbreakers(a: Person, b: Person) returns (out: seq<Dealbreaker>)
    ensures out == AllFindings(a, b)
  {
    var early := EarlyFindings(a, b);
    var middle := MiddleFindings(a, b);
    var status := StatusRule(a, b);
    var late := LateFindings(a, b);
    out := early + middle + status + late;
  }

  // ---- swapping the two people

  function SwapEvidence(e: Evidence): Evidence {
    match e
    case Values(a, b) => Values(b, a)
    case Routine(aOcc, bOcc, aRoutine, bRoutine) => Routine(bOcc, aOcc, bRoutine, aRoutine)
    case Motivations(a, b) => Motivations(b, a)
  }

  function SwapSides(ds: seq<Dealbreaker>): (r: seq<Dealbreaker>)
    ensures |r| == |ds|
    ensures forall i | 0 <= i < |ds| ::
      r[i].code == ds[i].code && r[i].severity == ds[i].severity && r[i].evidence == SwapEvidence(ds[i].evidence)
  {
    seq(|ds|, i requires 0 <= i < |ds| => ds[i].(evidence := SwapEvidence(ds[i].evidence)))
  }

  lemma SwapSidesConcat(xs: seq<Dealbreaker>, ys: seq<Dealbreaker>)
    ensures SwapSides(xs + ys) == SwapSides(xs) + SwapSides(ys)
  {}

  lemma ClaritySwapped(a: Person, b: Person)
    ensures ClarityFindings(b, a) == SwapSides(ClarityFindings(a, b))
  {}

  lemma DepthSwapped(a: Person, b: Person)
    ensures DepthFindings(b, a) == SwapSides(DepthFindings(a, b))
  {}

  lemma StatusSwapped(a: Person, b: Person)
    ensures StatusFindings(b, a) == SwapSides(StatusFindings(a, b))
  {}

  lemma ContextRulesSwapped(a: Person, b: Person)
    ensures RoutineFindings(b, a) == SwapSides(RoutineFindings(a, b))
    ensures VisibilityFindings(b, a) == SwapSides(VisibilityFindings(a, b))
    ensures LifeStageFindings(b, a) == SwapSides(LifeStageFindings(a, b))
    ensures MotivationFindings(b, a) == SwapSides(MotivationFindings(a, b))
  {}

  /** The same codes and severities in the same order, each explanation with its sides exchanged. */
  lemma FindingsSwapped(a: Person, b: Person)
    ensures AllFindings(b, a) == SwapSides(AllFindings(a, b))
  {
    ClaritySwapped(a, b);
    DepthSwapped(a, b);
    StatusSwapped(a, b);
    ContextRulesSwapped(a, b);
    var c := ClarityFindings(a, b);
    var cr := c + RoutineFindings(a, b);
    var crv := cr + VisibilityFindings(a, b);
    var crvd := crv + DepthFindings(a, b);
    var crvds := crvd + StatusFindings(a, b);
    SwapSidesConcat(c, RoutineFindings(a, b));
    SwapSidesConcat(cr, VisibilityFindings(a, b));
    SwapSidesConcat(crv, DepthFindings(a, b));
    SwapSidesConcat(crvd, StatusFindings(a, b));
    SwapSidesConcat(crvds, LifeStageFindings(a, b));
    SwapSidesConcat(SoftFindings(a, b), MotivationFindings(a, b));
  }

  // ---- wider intervals

  function Rank(s: Option<Severity>): int {
    match s
    case None => 0
    case Some(Warning) => 1
    case Some(Hard) => 3
    case Some(_) => 2
  }

  /** The interval from x to y lies in the one from lo to hi. */
  predicate Widens(x: real, y: real, lo: real, hi: real) { lo <= Min(x, y) && Max(x, y) <= hi }

  lemma WiderIsNoMilder(x: real, y: real, lo: real, hi: real)
    requires Widens(x, y, lo, hi)
    ensures Rank(ClaritySeverity(x, y)) <= Rank(ClaritySeverity(lo, hi))
    ensures Rank(StatusSeverity(x, y)) <= Rank(StatusSeverity(lo, hi))
  {}

  /** The test of the gap adds nothing to that of the ends. */
  lemma HardIff(x: real, y: real)
    ensures ClaritySeverity(x, y) == Some(Hard) <==> Min(x, y) <= 3.0 && Max(x, y) >= 9.0
    ensures StatusSeverity(x, y) == ClaritySeverity(x, y) || Rank(StatusSeverity(x, y)) > Rank(ClaritySeverity(x, y))
  {}

  // ---- the cap

  function Count(ds: seq<Dealbreaker>, severities: set<Severity>): nat {
    if ds == [] then 0
    else Count(ds[..|ds| - 1], severities) + if ds[|ds| - 1].severity in severities then 1 else 0
  }

  const HARD_CAP := 45.0

  function Deduction(ds: seq<Dealbreaker>): int {
    15 * Count(ds, {StrongFlag, Penalty}) + 5 * Count(ds, {Warning})
  }

  predicate AnyHard(ds: seq<Dealbreaker>) { exists d :: d in ds && d.severity == Hard }

  function ApplyDealbreakerCap(overall: real, ds: seq<Dealbreaker>): real {
    if AnyHard(ds) then Min(overall, HARD_CAP) else Max(0.0, overall - Deduction(ds) as real)
  }

  predicate SameInAnotherOrder(xs: seq<Dealbreaker>, ys: seq<Dealbreaker>) { multiset(xs) == multiset(ys) }

  lemma {:induction false} CountConcat(xs: seq<Dealbreaker>, ys: seq<Dealbreaker>, severities: set<Severity>)
    ensures Count(xs + ys, severities) == Count(xs, severities) + Count(ys, severities)
    decreases |ys|
  {
    if ys == [] {
      assert xs + ys == xs;
    } else {
      CountConcat(xs, ys[..|ys| - 1], severities);
      assert (xs + ys)[..|xs + ys| - 1] == xs + ys[..|ys| - 1];
    }
  }

  function Without(xs: seq<Dealbreaker>, i: nat): seq<Dealbreaker>
    requires i < |xs|
  {
    xs[..i] + xs[i + 1..]
  }

  lemma CountWithout(xs: seq<Dealbreaker>, i: nat, severities: set<Severity>)
    requires i < |xs|
    ensures Count(xs, severities) == Count(Without(xs, i), severities) + if xs[i].severity in severities then 1 else 0
  {
    CountConcat(xs[..i], xs[i + 1..], severities);
    CountConcat(xs[..i], xs[i..], severities);
    CountConcat([xs[i]], xs[i + 1..], severities);
    assert xs == xs[..i] + xs[i..];
    assert xs[i..] == [xs[i]] + xs[i + 1..];
  }

  lemma MultisetWithout(xs: seq<Dealbreaker>, i: nat)
    requires i < |xs|
    ensures multiset(Without(xs, i)) == multiset(xs) - multiset{xs[i]}
  {
    assert xs == xs[..i] + ([xs[i]] + xs[i + 1..]);
  }

  lemma {:induction false} CountIgnoresOrder(xs: seq<Dealbreaker>, ys: seq<Dealbreaker>, severities: set<Severity>)
    requires SameInAnotherOrder(xs, ys)
    ensures Count(xs, severities) == Count(ys, severities)
    decreases |xs|
  {
    if xs == [] {
      assert |multiset(ys)| == 0;
    } else {
      var last := |xs| - 1;
      assert xs[last] in multiset(ys);
      var i :| 0 <= i < |ys| && ys[i] == xs[last];
      MultisetWithout(xs, last);
      MultisetWithout(ys, i);
      CountWithout(ys, i, severities);
      assert Without(xs, last) == xs[..last];
      CountIgnoresOrder(xs[..last], Without(ys, i), severities);
    }
  }

  /** The order of the list does not matter. */
  lemma CapIgnoresOrder(overall: real, xs: seq<Dealbreaker>, ys: seq<Dealbreaker>)
    requires SameInAnotherOrder(xs, ys)
    ensures ApplyDealbreakerCap(overall, xs) == ApplyDealbreakerCap(overall, ys)
  {
    CountIgnoresOrder(xs, ys, {StrongFlag, Penalty});
    CountIgnoresOrder(xs, ys, {Warning});
    assert forall d :: d in xs <==> d in multiset(xs);
    assert forall d :: d in ys <==> d in multiset(ys);
  }

  lemma CapMonotone(overall: real, more: real, ds: seq<Dealbreaker>)
    requires overall <= more
    ensures ApplyDealbreakerCap(overall, ds) <= ApplyDealbreakerCap(more, ds)
  {}

  /** The result lies between 0 and the score unless the score is negative. */
  lemma CapInRangeIff(overall: real, ds: seq<Dealbreaker>)
    ensures 0.0 <= ApplyDealbreakerCap(overall, ds) <= overall <==> overall >= 0.0
  {}

  lemma {:induction false} DeductionConcat(xs: seq<Dealbreaker>, ys: seq<Dealbreaker>)
    ensures Deduction(xs + ys) == Deduction(xs) + Deduction(ys)
  {
    CountConcat(xs, ys, {StrongFlag, Penalty});
    CountConcat(xs, ys, {Warning});
  }

  lemma CountSingle(d: Dealbreaker, severities: set<Severity>)
    ensures Count([d], severities) == if d.severity in severities then 1 else 0
  {
    var one := [d];
    assert one[..|one| - 1] == [];
  }

  lemma CountOne(d: Dealbreaker)
    ensures Deduction([d]) == if d.severity == Hard then 0 else if d.severity == Warning then 5 else 15
  {
    CountSingle(d, {StrongFlag, Penalty});
    CountSingle(d, {Warning});
  }

  lemma OneFindingTakes15(ds: seq<Dealbreaker>)
    requires |ds| <= 1
    ensures 0 <= Deduction(ds) <= 15
  {
    if ds != [] {
      CountOne(ds[0]);
      assert ds == [ds[0]];
    }
  }

  /** No list without a hard finding takes more than 90. */
  lemma TakesAtMost90(a: Person, b: Person)
    ensures 0 <= Deduction(AllFindings(a, b)) <= 90
  {
    var (c, r, v) := (ClarityFindings(a, b), RoutineFindings(a, b), VisibilityFindings(a, b));
    var (d, s, l) := (DepthFindings(a, b), StatusFindings(a, b), LifeStageFindings(a, b));
    var m := MotivationFindings(a, b);
    OneFindingTakes15(c); OneFindingTakes15(r); OneFindingTakes15(v);
    OneFindingTakes15(d); OneFindingTakes15(s); OneFindingTakes15(l);
    DeductionConcat(c, r);
    DeductionConcat(c + r, v);
    DeductionConcat(c + r + v, d);
    DeductionConcat(c + r + v + d, s);
    DeductionConcat(c + r + v + d + s, l);
    DeductionConcat(SoftFindings(a, b), m);
    HardTakesNothing(a, b);
  }

  lemma HardTakesNothing(a: Person, b: Person)
    ensures Deduction(MotivationFindings(a, b)) == 0
  {
    var m := MotivationFindings(a, b);
    if m != [] {
      CountOne(m[0]);
      assert m == [m[0]];
    }
  }

  lemma SoftPairLosesAtMost90(overall: real, a: Person, b: Person)
    requires !AnyHard(AllFindings(a, b))
    ensures ApplyDealbreakerCap(overall, AllFindings(a, b)) >= overall - 90.0
  {
    TakesAtMost90(a, b);
  }

  /** A hard finding can leave a better score than softer ones: exactly if the score is positive and they take
      something off and leave less than the cap. */
  lemma HardIsMilderIff(overall: real, soft: seq<Dealbreaker>, hard: seq<Dealbreaker>)
    requires !AnyHard(soft) && AnyHard(hard)
    ensures ApplyDealbreakerCap(overall, hard) > ApplyDealbreakerCap(overall, soft)
       <==> overall > 0.0 && Deduction(soft) > 0 && overall - Deduction(soft) as real < HARD_CAP
  {}

  /** A score of 50: one hard finding leaves 45, one penalty leaves 35. */
  lemma HardIsMilderAtFifty(d: Dealbreaker, e: Dealbreaker)
    requires d.severity == Hard && e.severity == Penalty
    ensures ApplyDealbreakerCap(50.0, [d]) == 45.0 && ApplyDealbreakerCap(50.0, [e]) == 35.0
  {
    CountOne(e);
    assert d in [d];
  }

  /** Taking findings off one after another is taking them off together. */
  lemma CapSplits(overall: real, xs: seq<Dealbreaker>, ys: seq<Dealbreaker>)
    requires !AnyHard(xs) && !AnyHard(ys)
    ensures ApplyDealbreakerCap(ApplyDealbreakerCap(overall, xs), ys) == ApplyDealbreakerCap(overall, xs + ys)
  {
    DeductionConcat(xs, ys);
    DeductionIsNat(ys);
    assert forall d :: d in xs + ys <==> d in xs || d in ys;
  }

  lemma DeductionIsNat(ds: seq<Dealbreaker>)
    ensures Deduction(ds) >= 0
  {}

  lemma CapOfOne(overall: real, d: Dealbreaker)
    requires overall >= 0.0
    ensures ApplyDealbreakerCap(overall, [d]) == match d.severity
      case Hard => if overall > 45.0 then 45.0 else overall
      case Warning => if overall > 5.0 then overall - 5.0 else 0.0
      case _ => if overall > 15.0 then overall - 15.0 else 0.0
  {
    CountOne(d);
    assert d in [d];
  }

  // ---- what a pair loses, told from the two people

  function Lower(x: real, y: real): real { if x < y then x else y }

  function Upper(x: real, y: real): real { if x < y then y else x }

  /** The bands of the two graded rules, from the ends of the interval alone. Both find the same pairs of values;
      they differ only in the gap from which a finding is more than a warning. */
  lemma SeverityBands(x: real, y: real)
    ensures
      var (lo, hi) := (Lower(x, y), Upper(x, y));
      && (ClaritySeverity(x, y).Some? <==> hi >= 7.0 && hi - lo >= 4.0)
      && (StatusSeverity(x, y).Some? <==> hi >= 7.0 && hi - lo >= 4.0)
      && (Rank(ClaritySeverity(x, y)) >= 2 <==> hi >= 8.0 && hi - lo >= 5.0)
      && (Rank(StatusSeverity(x, y)) >= 2 <==> hi >= 8.0 && hi - lo >= 4.0)
      && (ClaritySeverity(x, y) == Some(Hard) <==> hi >= 9.0 && lo <= 3.0)
      && (StatusSeverity(x, y) == Some(Hard) <==> hi >= 9.0 && lo <= 3.0)
      && ClaritySeverity(x, y) != Some(StrongFlag) && StatusSeverity(x, y) != Some(StrongFlag)
  {}

  /** The examples that the source gives for clarity, of which it does not meet the third: 7 against 4 is
      no finding. */
  lemma ClarityExamples()
    ensures ClaritySeverity(9.0, 2.0) == Some(Hard) && ClaritySeverity(8.0, 3.0) == Some(Penalty)
    ensures ClaritySeverity(7.0, 4.0) == None && ClaritySeverity(7.0, 3.0) == Some(Warning)
    ensures ClaritySeverity(6.0, 5.0) == None
  {}

  function Of(p: Person, k: Signal): real { if k in p.signals then p.signals[k] else 5.0 }

  predicate FarEnds(x: real, y: real) { (x >= 9.0 && y <= 3.0) || (y >= 9.0 && x <= 3.0) }

  predicate SeeksPower(x: Person, y: Person) {
    x.motivation == Some(StatusPower) && y.motivation in {Some(FamilyBuilder), Some(EmotionalConnection)}
  }

  lemma HardOfConcat(xs: seq<Dealbreaker>, ys: seq<Dealbreaker>)
    ensures AnyHard(xs + ys) <==> AnyHard(xs) || AnyHard(ys)
  {
    assert forall d :: d in xs + ys <==> d in xs || d in ys;
  }

  lemma HardOfFindings(code: Code, severity: Option<Severity>, evidence: Evidence)
    ensures AnyHard(Findings(code, severity, evidence)) <==> severity == Some(Hard)
  {
    if severity.Some? {
      assert Dealbreaker(code, severity.value, evidence) in Findings(code, severity, evidence);
    }
  }

  lemma HardRules(a: Person, b: Person)
    ensures AnyHard(ClarityFindings(a, b)) <==> FarEnds(Of(a, RelationshipClarity), Of(b, RelationshipClarity))
    ensures AnyHard(StatusFindings(a, b)) <==> FarEnds(Of(a, StatusOrientation), Of(b, StatusOrientation))
    ensures AnyHard(MotivationFindings(a, b)) <==> SeeksPower(a, b) || SeeksPower(b, a)
  {
    var (x, y) := (Of(a, RelationshipClarity), Of(b, RelationshipClarity));
    var (u, v) := (Of(a, StatusOrientation), Of(b, StatusOrientation));
    HardOfFindings(RelationshipClarityMismatch, ClaritySeverity(x, y), Values(x, y));
    HardOfFindings(StatusGapSensitive, StatusSeverity(u, v), Values(u, v));
    SeverityBands(x, y);
    SeverityBands(u, v);
  }

  lemma SoftRules(a: Person, b: Person)
    ensures !AnyHard(RoutineFindings(a, b)) && !AnyHard(VisibilityFindings(a, b))
    ensures !AnyHard(DepthFindings(a, b)) && !AnyHard(LifeStageFindings(a, b))
  {}

  /** Exactly which pairs are capped. */
  lemma PairIsHardIff(a: Person, b: Person)
    ensures AnyHard(AllFindings(a, b)) <==>
      || FarEnds(Of(a, RelationshipClarity), Of(b, RelationshipClarity))
      || FarEnds(Of(a, StatusOrientation), Of(b, StatusOrientation))
      || SeeksPower(a, b) || SeeksPower(b, a)
  {
    var (c, u, v) := (ClarityFindings(a, b), RoutineFindings(a, b), VisibilityFindings(a, b));
    var (d, s, l) := (DepthFindings(a, b), StatusFindings(a, b), LifeStageFindings(a, b));
    HardOfConcat(c, u);
    HardOfConcat(c + u, v);
    HardOfConcat(c + u + v, d);
    HardOfConcat(c + u + v + d, s);
    HardOfConcat(c + u + v + d + s, l);
    HardOfConcat(SoftFindings(a, b), MotivationFindings(a, b));
    HardRules(a, b);
    SoftRules(a, b);
  }

  /** What a graded rule takes off: nothing, 5, or 15 from the given gap on. */
  function Graded(x: real, y: real, gap: real): int {
    var (lo, hi) := (Lower(x, y), Upper(x, y));
    if hi >= 9.0 && lo <= 3.0 then 0
    else if hi >= 8.0 && hi - lo >= gap then 15
    else if hi >= 7.0 && hi - lo >= 4.0 then 5
    else 0
  }

  function Fifteen(fires: bool): int { if fires then 15 else 0 }

  predicate Farther(x: Option<real>, y: Option<real>, gap: real) {
    var (u, v) := (if x.Some? then x.value else 5.0, if y.Some? then y.value else 5.0);
    u - v >= gap || v - u >= gap
  }

  predicate Unsteady(p: Person) { p.occupationClass in {Some("SHIFT_UNPREDICTABLE"), Some("TRAVEL_HEAVY")} }

  predicate Settled(p: Person) { Of(p, LifestylePace) <= 3.0 && Of(p, Directness) >= 7.0 }

  predicate DeepAndShallow(x: Person, y: Person) { Of(x, EmotionalDepth) >= 8.0 && Of(y, EmotionalDepth) <= 2.0 }

  lemma DeductionOfFindings(code: Code, severity: Option<Severity>, evidence: Evidence)
    ensures Deduction(Findings(code, severity, evidence)) ==
      if severity == None || severity == Some(Hard) then 0 else if severity == Some(Warning) then 5 else 15
  {
    if severity.Some? {
      CountOne(Dealbreaker(code, severity.value, evidence));
    }
  }

  lemma GradedDeductions(a: Person, b: Person)
    ensures Deduction(ClarityFindings(a, b)) == Graded(Of(a, RelationshipClarity), Of(b, RelationshipClarity), 5.0)
    ensures Deduction(StatusFindings(a, b)) == Graded(Of(a, StatusOrientation), Of(b, StatusOrientation), 4.0)
  {
    var (x, y) := (Of(a, RelationshipClarity), Of(b, RelationshipClarity));
    var (u, v) := (Of(a, StatusOrientation), Of(b, StatusOrientation));
    DeductionOfFindings(RelationshipClarityMismatch, ClaritySeverity(x, y), Values(x, y));
    DeductionOfFindings(StatusGapSensitive, StatusSeverity(u, v), Values(u, v));
    SeverityBands(x, y);
    SeverityBands(u, v);
  }

  lemma DistanceDeductions(a: Person, b: Person)
    ensures Deduction(VisibilityFindings(a, b)) == Fifteen(Farther(a.visibilityNeed, b.visibilityNeed, 6.0))
    ensures Deduction(LifeStageFindings(a, b)) == Fifteen(Farther(a.lifeStage, b.lifeStage, 4.0))
  {
    var (x, y) := (Or(a.visibilityNeed, 5.0), Or(b.visibilityNeed, 5.0));
    var (u, v) := (Or(a.lifeStage, 5.0), Or(b.lifeStage, 5.0));
    DeductionOfFindings(VisibilityNeedMismatch, When(Abs(x - y) >= 6.0, StrongFlag), Values(x, y));
    DeductionOfFindings(LifestageGap, When(Abs(u - v) >= 4.0, StrongFlag), Values(u, v));
  }

  lemma DepthDeduction(a: Person, b: Person)
    ensures Deduction(DepthFindings(a, b)) == Fifteen(DeepAndShallow(a, b) || DeepAndShallow(b, a))
  {
    var (d, e) := (Of(a, EmotionalDepth), Of(b, EmotionalDepth));
    DeductionOfFindings(EmotionalDepthFloor, When(HighAndLow(d, e) || HighAndLow(e, d), Penalty), Values(d, e));
  }

  lemma RoutineDeduction(a: Person, b: Person)
    ensures Deduction(RoutineFindings(a, b)) ==
      Fifteen((Unsteady(a) && Settled(b)) || (Unsteady(b) && Settled(a)))
  {
    DeductionOfFindings(
      UnpredictabilityRoutineMismatch,
      When((Unpredictable(a) && PrefersRoutine(b)) || (Unpredictable(b) && PrefersRoutine(a)), StrongFlag),
      Routine(Or(a.occupationClass, ""), Or(b.occupationClass, ""), PrefersRoutine(a), PrefersRoutine(b)));
  }

  /** What the findings of a pair take off. */
  function Points(a: Person, b: Person): int {
    Graded(Of(a, RelationshipClarity), Of(b, RelationshipClarity), 5.0) +
    Fifteen((Unsteady(a) && Settled(b)) || (Unsteady(b) && Settled(a))) +
    Fifteen(Farther(a.visibilityNeed, b.visibilityNeed, 6.0)) +
    Fifteen(DeepAndShallow(a, b) || DeepAndShallow(b, a)) +
    Graded(Of(a, StatusOrientation), Of(b, StatusOrientation), 4.0) +
    Fifteen(Farther(a.lifeStage, b.lifeStage, 4.0))
  }

  lemma DeductionOfSix(c: seq<Dealbreaker>, u: seq<Dealbreaker>, v: seq<Dealbreaker>,
                       d: seq<Dealbreaker>, s: seq<Dealbreaker>, l: seq<Dealbreaker>)
    ensures Deduction(c + u + v + d + s + l) ==
      Deduction(c) + Deduction(u) + Deduction(v) + Deduction(d) + Deduction(s) + Deduction(l)
  {
    DeductionConcat(c, u);
    DeductionConcat(c + u, v);
    DeductionConcat(c + u + v, d);
    DeductionConcat(c + u + v + d, s);
    DeductionConcat(c + u + v + d + s, l);
  }

  lemma DeductionOfPair(a: Person, b: Person)
    ensures Deduction(AllFindings(a, b)) == Points(a, b)
  {
    DeductionOfSix(ClarityFindings(a, b), RoutineFindings(a, b), VisibilityFindings(a, b),
                   DepthFindings(a, b), StatusFindings(a, b), LifeStageFindings(a, b));
    DeductionConcat(SoftFindings(a, b), MotivationFindings(a, b));
    HardTakesNothing(a, b);
    GradedDeductions(a, b);
    DistanceDeductions(a, b);
    DepthDeduction(a, b);
    RoutineDeduction(a, b);
  }

  /** What a pair that is not capped loses. */
  lemma PairLoses(overall: real, a: Person, b: Person)
    requires !AnyHard(AllFindings(a, b))
    ensures ApplyDealbreakerCap(overall, AllFindings(a, b)) ==
      if overall > Points(a, b) as real then overall - Points(a, b) as real else 0.0
  {
    DeductionOfPair(a, b);
  }

  /** The seven forms that a finding can have, each with what it shows of the two people. */
  ghost predicate IsFinding(a: Person, b: Person, d: Dealbreaker) {
    var (x, y) := (Of(a, RelationshipClarity), Of(b, RelationshipClarity));
    var (u, v) := (Of(a, StatusOrientation), Of(b, StatusOrientation));
    match d.code
    case RelationshipClarityMismatch => ClaritySeverity(x, y) == Some(d.severity) && d.evidence == Values(x, y)
    case StatusGapSensitive => StatusSeverity(u, v) == Some(d.severity) && d.evidence == Values(u, v)
    case UnpredictabilityRoutineMismatch =>
      && d.severity == StrongFlag && ((Unsteady(a) && Settled(b)) || (Unsteady(b) && Settled(a)))
      && d.evidence == Routine(TextOr(a.occupationClass), TextOr(b.occupationClass), Settled(a), Settled(b))
    case EmotionalDepthFloor =>
      && d.severity == Penalty && (DeepAndShallow(a, b) || DeepAndShallow(b, a))
      && d.evidence == Values(Of(a, EmotionalDepth), Of(b, EmotionalDepth))
    case LifestageGap =>
      && d.severity == StrongFlag && Farther(a.lifeStage, b.lifeStage, 4.0)
      && d.evidence == Values(FiveOr(a.lifeStage), FiveOr(b.lifeStage))
    case VisibilityNeedMismatch =>
      || (&& d.severity == StrongFlag && Farther(a.visibilityNeed, b.visibilityNeed, 6.0)
          && d.evidence == Values(FiveOr(a.visibilityNeed), FiveOr(b.visibilityNeed)))
      || (&& d.severity == Hard && (SeeksPower(a, b) || SeeksPower(b, a))
          && d.evidence == Motivations(a.motivation, b.motivation))
  }

  function FiveOr(x: Option<real>): real { match x case Some(v) => v case None => 5.0 }

  function TextOr(x: Option<string>): string { match x case Some(v) => v case None => "" }

  lemma InSignalRules(a: Person, b: Person, d: Dealbreaker)
    ensures d in ClarityFindings(a, b) <==> d.code == RelationshipClarityMismatch && IsFinding(a, b, d)
    ensures d in DepthFindings(a, b) <==> d.code == EmotionalDepthFloor && IsFinding(a, b, d)
    ensures d in StatusFindings(a, b) <==> d.code == StatusGapSensitive && IsFinding(a, b, d)
  {}

  lemma InContextRules(a: Person, b: Person, d: Dealbreaker)
    ensures d in RoutineFindings(a, b) <==> d.code == UnpredictabilityRoutineMismatch && IsFinding(a, b, d)
    ensures d in LifeStageFindings(a, b) <==> d.code == LifestageGap && IsFinding(a, b, d)
    ensures d in VisibilityFindings(a, b) || d in MotivationFindings(a, b) <==>
      d.code == VisibilityNeedMismatch && IsFinding(a, b, d)
  {}

  /** Exactly the findings of a pair. */
  lemma FindingIff(a: Person, b: Person, d: Dealbreaker)
    ensures d in AllFindings(a, b) <==> IsFinding(a, b, d)
  {
    InSignalRules(a, b, d);
    InContextRules(a, b, d);
  }

  // ---- the bound of 90 is reached

  const SHIFT_WORKER := Person(
    map[RelationshipClarity := 8.0, EmotionalDepth := 8.0, StatusOrientation := 8.0],
    Some("SHIFT_UNPREDICTABLE"), Some(10.0), Some(10.0), None)

  const HOMEBODY := Person(
    map[RelationshipClarity := 3.0, EmotionalDepth := 2.0, StatusOrientation := 4.0,
        LifestylePace := 3.0, Directness := 7.0],
    None, Some(4.0), Some(6.0), None)

  predicate OneSoft(ds: seq<Dealbreaker>) { |ds| == 1 && ds[0].severity in {StrongFlag, Penalty} }

  lemma OneSoftTakes15(ds: seq<Dealbreaker>)
    requires OneSoft(ds)
    ensures Deduction(ds) == 15 && !AnyHard(ds)
  {
    CountOne(ds[0]);
    assert ds == [ds[0]];
  }

  lemma SampleSignalRules()
    ensures OneSoft(ClarityFindings(SHIFT_WORKER, HOMEBODY))
    ensures OneSoft(DepthFindings(SHIFT_WORKER, HOMEBODY))
    ensures OneSoft(StatusFindings(SHIFT_WORKER, HOMEBODY))
  {}

  lemma SampleContextRules()
    ensures OneSoft(RoutineFindings(SHIFT_WORKER, HOMEBODY))
    ensures OneSoft(VisibilityFindings(SHIFT_WORKER, HOMEBODY))
    ensures OneSoft(LifeStageFindings(SHIFT_WORKER, HOMEBODY))
    ensures MotivationFindings(SHIFT_WORKER, HOMEBODY) == []
  {}

  lemma Ninety(c: seq<Dealbreaker>, r: seq<Dealbreaker>, v: seq<Dealbreaker>,
               d: seq<Dealbreaker>, s: seq<Dealbreaker>, l: seq<Dealbreaker>)
    requires OneSoft(c) && OneSoft(r) && OneSoft(v) && OneSoft(d) && OneSoft(s) && OneSoft(l)
    ensures Deduction(c + r + v + d + s + l) == 90
    ensures !AnyHard(c + r + v + d + s + l)
  {
    OneSoftTakes15(c); OneSoftTakes15(r); OneSoftTakes15(v);
    OneSoftTakes15(d); OneSoftTakes15(s); OneSoftTakes15(l);
    DeductionConcat(c, r);
    DeductionConcat(c + r, v);
    DeductionConcat(c + r + v, d);
    DeductionConcat(c + r + v + d, s);
    DeductionConcat(c + r + v + d + s, l);
  }

  lemma NinetyIsReached()
    ensures !AnyHard(AllFindings(SHIFT_WORKER, HOMEBODY))
    ensures Deduction(AllFindings(SHIFT_WORKER, HOMEBODY)) == 90
  {
    var (a, b) := (SHIFT_WORKER, HOMEBODY);
    SampleSignalRules();
    SampleContextRules();
    Ninety(ClarityFindings(a, b), RoutineFindings(a, b), VisibilityFindings(a, b),
           DepthFindings(a, b), StatusFindings(a, b), LifeStageFindings(a, b));
    assert AllFindings(a, b) == SoftFindings(a, b);
  }
}
