/** Tension rules between two people and the friction they add up to. */
module Friction {
  import opened Basics
  import opened Signals

  /** The first and the second person of a comparison. */
  datatype Side = A | B

  /** The tests that the rules are made of. An absent signal counts as 0 in the last three. */
  datatype Atom =
    | Known(side: Side, key: Signal)
    | AtLeast(side: Side, key: Signal, limit: real)
    | AtMost(side: Side, key: Signal, limit: real)
    | Apart(key: Signal, gap: real)

  /** The `when` of a rule: nothing without the needs, and then any case of which all tests hold. */
  datatype Condition = Condition(needs: seq<Atom>, cases: seq<seq<Atom>>)

  function Of(side: Side, a: SignalMap, b: SignalMap): SignalMap { if side == A then a else b }

  predicate AtomHolds(x: Atom, a: SignalMap, b: SignalMap) {
    match x
    case Known(side, key) => key in Of(side, a, b)
    case AtLeast(side, key, limit) => Num(Of(side, a, b), key) >= limit
    case AtMost(side, key, limit) => Num(Of(side, a, b), key) <= limit
    case Apart(key, gap) => Abs(Num(a, key) - Num(b, key)) >= gap
  }

  predicate AllHold(xs: seq<Atom>, a: SignalMap, b: SignalMap) { forall x | x in xs :: AtomHolds(x, a, b) }

  predicate SomeCase(w: Condition, a: SignalMap, b: SignalMap) {
    exists i :: 0 <= i < |w.cases| && AllHold(w.cases[i], a, b)
  }

  predicate Holds(w: Condition, a: SignalMap, b: SignalMap) { AllHold(w.needs, a, b) && SomeCase(w, a, b) }

  function Both(key: Signal): seq<Atom> { [Known(A, key), Known(B, key)] }

  datatype Rule = Rule(id: string, penalty: nat, condition: Condition)

  // The table, in its order; the names of the parts only help to read it.

  const CORE_RULES: seq<Rule> := [
    Rule("stability_vs_nomadism", 4, Condition([], [
      [AtLeast(A, Traditionalism, 7.0), AtLeast(B, LifestylePace, 7.0)],
      [AtLeast(B, Traditionalism, 7.0), AtLeast(A, LifestylePace, 7.0)]])),
    Rule("emotional_depth_gap", 3, Condition(Both(EmotionalDepth), [[Apart(EmotionalDepth, 4.0)]])),
    Rule("both_low_attachment", 2, Condition(Both(AttachmentSecurity), [
      [AtMost(A, AttachmentSecurity, 4.0), AtMost(B, AttachmentSecurity, 4.0)]])),
    Rule("fusion_vs_boundaries", 7, Condition([], [
      [AtLeast(A, FusionNeed, 7.0), AtLeast(B, BoundariesNeed, 6.0)],
      [AtLeast(B, FusionNeed, 7.0), AtLeast(A, BoundariesNeed, 6.0)]])),
    Rule("independence_mismatch", 6, Condition(Both(Independence), [
      [AtMost(A, Independence, 2.0), AtLeast(B, Independence, 7.0)],
      [AtLeast(A, Independence, 7.0), AtMost(B, Independence, 2.0)]])),
    Rule("attachment_anxiety_vs_directness", 4, Condition([], [
      [AtMost(A, AttachmentSecurity, 2.0), AtLeast(B, Directness, 8.0)],
      [AtMost(B, AttachmentSecurity, 2.0), AtLeast(A, Directness, 8.0)]])),
    Rule("traditional_vs_high_pace", 3, Condition([], [
      [AtLeast(A, Traditionalism, 8.0), AtLeast(B, LifestylePace, 8.0)],
      [AtLeast(B, Traditionalism, 8.0), AtLeast(A, LifestylePace, 8.0)]]))
  ]

  const GAP_RULES: seq<Rule> := [
    Rule("traditionalism_structure_gap", 2, Condition(Both(Traditionalism), [[Apart(Traditionalism, 5.0)]])),
    Rule("relationship_clarity_flow_gap", 2, Condition(Both(RelationshipClarity), [
      [Apart(RelationshipClarity, 5.0)]])),
    Rule("social_battery_mismatch", 3, Condition(Both(SocialBattery), [[Apart(SocialBattery, 6.0)]])),
    Rule("lifestyle_pace_mismatch", 2, Condition(Both(LifestylePace), [[Apart(LifestylePace, 5.0)]])),
    Rule("financial_mindset_mismatch", 3, Condition(Both(FinancialMindset), [[Apart(FinancialMindset, 5.0)]])),
    Rule("status_orientation_mismatch", 2, Condition(Both(StatusOrientation), [[Apart(StatusOrientation, 6.0)]])),
    Rule("physical_priority_mismatch", 2, Condition(Both(PhysicalPriority), [[Apart(PhysicalPriority, 6.0)]]))
  ]

  const TEMPERAMENT_RULES: seq<Rule> := [
    Rule("empathy_gap", 4, Condition(Both(EmpathyCompassion), [
      [AtLeast(A, EmpathyCompassion, 8.0), AtMost(B, EmpathyCompassion, 3.0)],
      [AtLeast(B, EmpathyCompassion, 8.0), AtMost(A, EmpathyCompassion, 3.0)]])),
    Rule("vulnerability_mismatch", 5, Condition(Both(VulnerabilityOpenness), [
      [AtLeast(A, VulnerabilityOpenness, 7.0), AtMost(B, VulnerabilityOpenness, 3.0)],
      [AtLeast(B, VulnerabilityOpenness, 7.0), AtMost(A, VulnerabilityOpenness, 3.0)]])),
    Rule("emotional_volatility_gap", 5, Condition(Both(EmotionalRegulation), [
      [AtLeast(A, EmotionalRegulation, 8.0), AtMost(B, EmotionalRegulation, 3.0)],
      [AtLeast(B, EmotionalRegulation, 8.0), AtMost(A, EmotionalRegulation, 3.0)]])),
    Rule("affection_needs_gap", 4, Condition(Both(PhysicalAffectionStyle), [
      [AtLeast(A, PhysicalAffectionStyle, 8.0), AtMost(B, PhysicalAffectionStyle, 3.0)],
      [AtLeast(B, PhysicalAffectionStyle, 8.0), AtMost(A, PhysicalAffectionStyle, 3.0)]])),
    Rule("humor_mismatch", 3, Condition(Both(HumorPlayfulness), [
      [AtLeast(A, HumorPlayfulness, 8.0), AtMost(B, HumorPlayfulness, 3.0)],
      [AtLeast(B, HumorPlayfulness, 8.0), AtMost(A, HumorPlayfulness, 3.0)]])),
    Rule("intellectual_gap", 4, Condition(Both(IntellectualCuriosity), [
      [AtLeast(A, IntellectualCuriosity, 8.0), AtMost(B, IntellectualCuriosity, 3.0)],
      [AtLeast(B, IntellectualCuriosity, 8.0), AtMost(A, IntellectualCuriosity, 3.0)]])),
    Rule("creative_mismatch", 2, Condition(Both(CreativeExpression), [
      [AtLeast(A, CreativeExpression, 8.0), AtMost(B, CreativeExpression, 2.0)],
      [AtLeast(B, CreativeExpression, 8.0), AtMost(A, CreativeExpression, 2.0)]])),
    Rule("activity_level_gap", 3, Condition(Both(PhysicalActivityLevel), [
      [AtLeast(A, PhysicalActivityLevel, 8.0), AtMost(B, PhysicalActivityLevel, 3.0)],
      [AtLeast(B, PhysicalActivityLevel, 8.0), AtMost(A, PhysicalActivityLevel, 3.0)]]))
  ]

  const LIFESTYLE_RULES: seq<Rule> := [
    Rule("domestic_out_mismatch", 3, Condition(Both(DomesticComfort), [
      [AtLeast(A, DomesticComfort, 8.0), AtMost(B, DomesticComfort, 3.0)],
      [AtLeast(B, DomesticComfort, 8.0), AtMost(A, DomesticComfort, 3.0)]])),
    Rule("novelty_routine_clash", 4, Condition(Both(AdventureNovelty), [
      [AtLeast(A, AdventureNovelty, 8.0), AtMost(B, AdventureNovelty, 3.0)],
      [AtLeast(B, AdventureNovelty, 8.0), AtMost(A, AdventureNovelty, 3.0)]])),
    Rule("casual_intimacy_clash", 6, Condition(Both(CasualIntimacyIntent), [
      [AtLeast(A, CasualIntimacyIntent, 8.0), AtMost(B, CasualIntimacyIntent, 3.0)],
      [AtLeast(B, CasualIntimacyIntent, 8.0), AtMost(A, CasualIntimacyIntent, 3.0)]])),
    Rule("support_exchange_mismatch", 6, Condition(Both(SupportExchangeOrientation), [
      [AtLeast(A, SupportExchangeOrientation, 8.0), AtMost(B, SupportExchangeOrientation, 3.0)],
      [AtLeast(B, SupportExchangeOrientation, 8.0), AtMost(A, SupportExchangeOrientation, 3.0)]])),
    Rule("support_both_provider", 4, Condition(Both(SupportExchangeOrientation) + Both(SupportProviderOrientation), [
      [AtLeast(A, SupportExchangeOrientation, 7.0), AtLeast(B, SupportExchangeOrientation, 7.0),
       AtLeast(A, SupportProviderOrientation, 7.0), AtLeast(B, SupportProviderOrientation, 7.0)]])),
    Rule("support_both_recipient", 4, Condition(Both(SupportExchangeOrientation) + Both(SupportRecipientOrientation), [
      [AtLeast(A, SupportExchangeOrientation, 7.0), AtLeast(B, SupportExchangeOrientation, 7.0),
       AtLeast(A, SupportRecipientOrientation, 7.0), AtLeast(B, SupportRecipientOrientation, 7.0)]])),
    Rule("religious_observance_gap", 5, Condition(Both(ReligiousObservance), [
      [Apart(ReligiousObservance, 6.0), AtLeast(A, ReligiousObservance, 7.0)],
      [Apart(ReligiousObservance, 6.0), AtLeast(B, ReligiousObservance, 7.0)]])),
    Rule("education_level_gap", 4, Condition(Both(EducationLevel), [
      [Apart(EducationLevel, 5.0), AtLeast(A, EducationLevel, 8.0)],
      [Apart(EducationLevel, 5.0), AtLeast(B, EducationLevel, 8.0)]])),
    Rule("honesty_integrity_gap", 5, Condition(Both(HonestyIntegrity), [
      [AtLeast(A, HonestyIntegrity, 8.0), AtMost(B, HonestyIntegrity, 3.0)],
      [AtLeast(B, HonestyIntegrity, 8.0), AtMost(A, HonestyIntegrity, 3.0)]])),
    Rule("chronotype_clash", 3, Condition(Both(Chronotype), [
      [AtLeast(A, Chronotype, 8.0), AtMost(B, Chronotype, 3.0)],
      [AtLeast(B, Chronotype, 8.0), AtMost(A, Chronotype, 3.0)]]))
  ]

  const CONFLICT_RULES: seq<Rule> := [
    Rule("repair_skills_gap", 5, Condition(Both(RepairSkills), [
      [AtLeast(A, RepairSkills, 8.0), AtMost(B, RepairSkills, 3.0)],
      [AtLeast(B, RepairSkills, 8.0), AtMost(A, RepairSkills, 3.0)]])),
    Rule("both_low_repair", 6, Condition(Both(RepairSkills), [
      [AtMost(A, RepairSkills, 3.0), AtMost(B, RepairSkills, 3.0)]])),
    Rule("forgiveness_style_gap", 4, Condition(Both(ForgivenessStyle), [
      [AtLeast(A, ForgivenessStyle, 8.0), AtMost(B, ForgivenessStyle, 3.0)],
      [AtLeast(B, ForgivenessStyle, 8.0), AtMost(A, ForgivenessStyle, 3.0)]])),
    Rule("stress_response_clash", 5, Condition(Both(StressResponse), [
      [AtLeast(A, StressResponse, 8.0), AtMost(B, StressResponse, 3.0)],
      [AtLeast(B, StressResponse, 8.0), AtMost(A, StressResponse, 3.0)]])),
    Rule("jealousy_security_gap", 5, Condition(Both(JealousySecurity), [
      [AtLeast(A, JealousySecurity, 8.0), AtMost(B, JealousySecurity, 3.0)],
      [AtLeast(B, JealousySecurity, 8.0), AtMost(A, JealousySecurity, 3.0)]])),
    Rule("both_high_jealousy", 3, Condition(Both(JealousySecurity), [
      [AtLeast(A, JealousySecurity, 8.0), AtLeast(B, JealousySecurity, 8.0)]])),
    Rule("listening_presence_gap", 4, Condition(Both(ListeningPresence), [
      [AtLeast(A, ListeningPresence, 8.0), AtMost(B, ListeningPresence, 3.0)],
      [AtLeast(B, ListeningPresence, 8.0), AtMost(A, ListeningPresence, 3.0)]])),
    Rule("emotional_expression_gap", 4, Condition(Both(EmotionalExpression), [
      [AtLeast(A, EmotionalExpression, 8.0), AtMost(B, EmotionalExpression, 3.0)],
      [AtLeast(B, EmotionalExpression, 8.0), AtMost(A, EmotionalExpression, 3.0)]]))
  ]

  const RELATING_RULES: seq<Rule> := [
    Rule("growth_mindset_gap", 4, Condition(Both(GrowthMindset), [
      [AtLeast(A, GrowthMindset, 8.0), AtMost(B, GrowthMindset, 3.0)],
      [AtLeast(B, GrowthMindset, 8.0), AtMost(A, GrowthMindset, 3.0)]])),
    Rule("both_low_self_awareness", 3, Condition(Both(SelfAwareness), [
      [AtMost(A, SelfAwareness, 3.0), AtMost(B, SelfAwareness, 3.0)]])),
    Rule("patience_tolerance_gap", 3, Condition(Both(PatienceTolerance), [
      [AtLeast(A, PatienceTolerance, 8.0), AtMost(B, PatienceTolerance, 3.0)],
      [AtLeast(B, PatienceTolerance, 8.0), AtMost(A, PatienceTolerance, 3.0)]])),
    Rule("intimacy_pacing_clash", 4, Condition(Both(IntimacyPacing), [
      [AtLeast(A, IntimacyPacing, 8.0), AtMost(B, IntimacyPacing, 3.0)],
      [AtLeast(B, IntimacyPacing, 8.0), AtMost(A, IntimacyPacing, 3.0)]])),
    Rule("monogamy_alignment_mismatch", 8, Condition(Both(MonogamyAlignment), [
      [AtMost(A, MonogamyAlignment, 2.0), AtLeast(B, MonogamyAlignment, 8.0)],
      [AtMost(B, MonogamyAlignment, 2.0), AtLeast(A, MonogamyAlignment, 8.0)]])),
    Rule("family_enmeshment_gap", 4, Condition(Both(FamilyEnmeshment), [
      [AtLeast(A, FamilyEnmeshment, 8.0), AtMost(B, FamilyEnmeshment, 3.0)],
      [AtLeast(B, FamilyEnmeshment, 8.0), AtMost(A, FamilyEnmeshment, 3.0)]])),
    Rule("friend_couple_balance_gap", 3, Condition(Both(FriendCoupleBalance), [
      [AtLeast(A, FriendCoupleBalance, 8.0), AtMost(B, FriendCoupleBalance, 3.0)],
      [AtLeast(B, FriendCoupleBalance, 8.0), AtMost(A, FriendCoupleBalance, 3.0)]])),
    Rule("alone_time_need_gap", 3, Condition(Both(AloneTimeNeed), [
      [AtLeast(A, AloneTimeNeed, 8.0), AtMost(B, AloneTimeNeed, 3.0)],
      [AtLeast(B, AloneTimeNeed, 8.0), AtMost(A, AloneTimeNeed, 3.0)]]))
  ]

  const RULES: seq<Rule> :=
    CORE_RULES + GAP_RULES + TEMPERAMENT_RULES + LIFESTYLE_RULES + CONFLICT_RULES + RELATING_RULES

  /** The rules of the table that a test selects, in table order. */
  function Selected(rules: seq<Rule>, test: Condition -> bool): seq<Rule> {
    if rules == [] then []
    else
      var before := Selected(rules[..|rules| - 1], test);
      if test(rules[|rules| - 1].condition) then before + [rules[|rules| - 1]] else before
  }

  function Between(a: SignalMap, b: SignalMap): Condition -> bool { (w: Condition) => Holds(w, a, b) }

  /** The tensions of two people. */
  function Firing(rules: seq<Rule>, a: SignalMap, b: SignalMap): seq<Rule> { Selected(rules, Between(a, b)) }

  function Penalties(tensions: seq<Rule>): nat {
    if tensions == [] then 0 else Penalties(tensions[..|tensions| - 1]) + tensions[|tensions| - 1].penalty
  }

  function FrictionOf(rules: seq<Rule>, a: SignalMap, b: SignalMap): nat {
    var sum := Penalties(Firing(rules, a, b));
    if sum < 10 then sum else 10
  }

  method ComputeFriction(a: SignalMap, b: SignalMap) returns (friction: int, tensions: seq<Rule>)
    ensures tensions == Firing(RULES, a, b)
    ensures friction == FrictionOf(RULES, a, b)
  {
    var sumPenalties: int;
    tensions, sumPenalties := AddUp(RULES, a, b);
    var capped := if sumPenalties < 10 then sumPenalties else 10;
    friction := if capped < 0 then 0 else capped;
  }

  /** The loop of computeFriction over a rule table. */
  method AddUp(rules: seq<Rule>, a: SignalMap, b: SignalMap) returns (tensions: seq<Rule>, sumPenalties: int)
    ensures tensions == Firing(rules, a, b)
    ensures sumPenalties == Penalties(tensions)
  {
    tensions := [];
    sumPenalties := 0;
    var test := Between(a, b);
    for i := 0 to |rules|
      invariant tensions == Selected(rules[..i], test) && sumPenalties == Penalties(tensions)
    {
      assert rules[..i + 1][..i] == rules[..i];
      if test(rules[i].condition) {
        PenaltiesAppend(tensions, rules[i]);
        tensions := tensions + [rules[i]];
        sumPenalties := sumPenalties + rules[i].penalty;
      }
    }
    assert rules[..|rules|] == rules;
  }

  // ---- swapping the two people

  function Mirror(x: Atom): Atom {
    match x
    case Known(side, key) => Known(if side == A then B else A, key)
    case AtLeast(side, key, limit) => AtLeast(if side == A then B else A, key, limit)
    case AtMost(side, key, limit) => AtMost(if side == A then B else A, key, limit)
    case Apart(_, _) => x
  }

  /** The list is made of tests that are their own mirror image or come with it: what exchanging the sides
      does to it is a permutation. */
  predicate Closed(xs: seq<Atom>) {
    || xs == []
    || (|xs| == 1 && xs[0] == Mirror(xs[0]))
    || (|xs| == 2 && xs[1] == Mirror(xs[0]))
    || (|xs| == 4 && xs[1] == Mirror(xs[0]) && xs[3] == Mirror(xs[2]))
  }

  /** Exchanging the sides turns each of two lists of two tests into the other, up to order. */
  predicate Opposed(xs: seq<Atom>, ys: seq<Atom>) {
    && |xs| == 2 && |ys| == 2
    && ((ys[0] == Mirror(xs[0]) && ys[1] == Mirror(xs[1])) || (ys[0] == Mirror(xs[1]) && ys[1] == Mirror(xs[0])))
  }

  /** Exchanging the sides of every test permutes the needs, and the cases and their tests. */
  predicate Symmetric(w: Condition) {
    && Closed(w.needs)
    && if |w.cases| == 2 then Opposed(w.cases[0], w.cases[1]) else |w.cases| == 1 && Closed(w.cases[0])
  }

  lemma AtomMirrored(x: Atom, a: SignalMap, b: SignalMap)
    ensures AtomHolds(Mirror(x), a, b) == AtomHolds(x, b, a)
  {}

  lemma ClosedSwapped(xs: seq<Atom>, a: SignalMap, b: SignalMap)
    requires Closed(xs) && AllHold(xs, a, b)
    ensures AllHold(xs, b, a)
  {
    forall i | 0 <= i < |xs|
      ensures AtomHolds(xs[i], b, a)
    {
      AtomMirrored(xs[i], a, b);
      AtomMirrored(xs[i], b, a);
      assert AtomHolds(xs[if |xs| == 1 then 0 else if i % 2 == 0 then i + 1 else i - 1], a, b);
      if |xs| > 1 && i % 2 == 1 {
        AtomMirrored(xs[i - 1], b, a);
      }
    }
  }

  lemma OpposedSwapped(xs: seq<Atom>, ys: seq<Atom>, a: SignalMap, b: SignalMap)
    requires Opposed(xs, ys)
    ensures AllHold(xs, a, b) == AllHold(ys, b, a)
  {
    AtomMirrored(xs[0], b, a);
    AtomMirrored(xs[1], b, a);
    assert AllHold(xs, a, b) == (AtomHolds(xs[0], a, b) && AtomHolds(xs[1], a, b));
    assert AllHold(ys, b, a) == (AtomHolds(ys[0], b, a) && AtomHolds(ys[1], b, a));
  }

  lemma SymmetricHolds(w: Condition, a: SignalMap, b: SignalMap)
    requires Symmetric(w) && Holds(w, a, b)
    ensures Holds(w, b, a)
  {
    ClosedSwapped(w.needs, a, b);
    SomeCaseSwapped(w, a, b);
  }

  lemma SomeCaseSwapped(w: Condition, a: SignalMap, b: SignalMap)
    requires Symmetric(w) && SomeCase(w, a, b)
    ensures SomeCase(w, b, a)
  {
    var i :| 0 <= i < |w.cases| && AllHold(w.cases[i], a, b);
    if |w.cases| == 1 {
      ClosedSwapped(w.cases[0], a, b);
      assert AllHold(w.cases[0], b, a);
    } else {
      OpposedSwapped(w.cases[0], w.cases[1], a, b);
      OpposedSwapped(w.cases[0], w.cases[1], b, a);
      assert AllHold(w.cases[1 - i], b, a);
    }
  }

  lemma CoreRulesAreSymmetric(i: nat)
    requires i < |CORE_RULES|
    ensures Symmetric(CORE_RULES[i].condition)
  {}

  lemma GapRulesAreSymmetric(i: nat)
    requires i < |GAP_RULES|
    ensures Symmetric(GAP_RULES[i].condition)
  {}

  lemma TemperamentRulesAreSymmetric(i: nat)
    requires i < |TEMPERAMENT_RULES|
    ensures Symmetric(TEMPERAMENT_RULES[i].condition)
  {}

  lemma LifestyleRulesAreSymmetric(i: nat)
    requires i < |LIFESTYLE_RULES|
    ensures Symmetric(LIFESTYLE_RULES[i].condition)
  {}

  lemma ConflictRulesAreSymmetric(i: nat)
    requires i < |CONFLICT_RULES|
    ensures Symmetric(CONFLICT_RULES[i].condition)
  {}

  lemma RelatingRulesAreSymmetric(i: nat)
    requires i < |RELATING_RULES|
    ensures Symmetric(RELATING_RULES[i].condition)
  {}

  /** Of every rule in the table: exchanging the two people permutes what it asks. */
  lemma TableIsSymmetric(i: nat)
    requires i < |RULES|
    ensures Symmetric(RULES[i].condition)
  {
    var part1 := |CORE_RULES|;
    var part2 := part1 + |GAP_RULES|;
    var part3 := part2 + |TEMPERAMENT_RULES|;
    var part4 := part3 + |LIFESTYLE_RULES|;
    var part5 := part4 + |CONFLICT_RULES|;
    if i < part1 {
      CoreRulesAreSymmetric(i);
    } else if i < part2 {
      GapRulesAreSymmetric(i - part1);
    } else if i < part3 {
      TemperamentRulesAreSymmetric(i - part2);
    } else if i < part4 {
      LifestyleRulesAreSymmetric(i - part3);
    } else if i < part5 {
      ConflictRulesAreSymmetric(i - part4);
    } else {
      RelatingRulesAreSymmetric(i - part5);
    }
  }

  lemma {:induction false} SelectedAlike(rules: seq<Rule>, test: Condition -> bool, other: Condition -> bool)
    requires forall i | 0 <= i < |rules| :: test(rules[i].condition) == other(rules[i].condition)
    ensures Selected(rules, test) == Selected(rules, other)
    decreases |rules|
  {
    if rules != [] {
      SelectedAlike(rules[..|rules| - 1], test, other);
    }
  }

  /** Swapping the two people changes neither the tensions, nor their order, nor the friction. */
  lemma FrictionSwapped(a: SignalMap, b: SignalMap)
    ensures Firing(RULES, a, b) == Firing(RULES, b, a)
    ensures FrictionOf(RULES, a, b) == FrictionOf(RULES, b, a)
  {
    forall i | 0 <= i < |RULES|
      ensures Between(a, b)(RULES[i].condition) == Between(b, a)(RULES[i].condition)
    {
      RuleSwapped(i, a, b);
    }
    SelectedAlike(RULES, Between(a, b), Between(b, a));
  }

  lemma RuleSwapped(i: nat, a: SignalMap, b: SignalMap)
    requires i < |RULES|
    ensures Holds(RULES[i].condition, a, b) == Holds(RULES[i].condition, b, a)
  {
    TableIsSymmetric(i);
    if Holds(RULES[i].condition, a, b) {
      SymmetricHolds(RULES[i].condition, a, b);
    } else if Holds(RULES[i].condition, b, a) {
      SymmetricHolds(RULES[i].condition, b, a);
    }
  }

  /** A one-sided rule is not symmetric: the table could have failed. */
  lemma OneSidedIsNotSymmetric()
    ensures
      var w := Condition(Both(Directness), [[AtLeast(A, Directness, 8.0), AtMost(B, Directness, 3.0)]]);
      !Symmetric(w) && exists a, b :: Holds(w, a, b) && !Holds(w, b, a)
  {
    var w := Condition(Both(Directness), [[AtLeast(A, Directness, 8.0), AtMost(B, Directness, 3.0)]]);
    var a: SignalMap, b: SignalMap := map[Directness := 9.0], map[Directness := 1.0];
    assert AllHold(w.cases[0], a, b);
    assert !AtomHolds(w.cases[0][0], b, a) && w.cases[0][0] in w.cases[0];
    assert Holds(w, a, b) && !Holds(w, b, a);
  }

  // ---- more tensions, more friction

  ghost predicate FiresToo(rules: seq<Rule>, a: SignalMap, b: SignalMap, c: SignalMap, d: SignalMap) {
    forall i | 0 <= i < |rules| :: Holds(rules[i].condition, a, b) ==> Holds(rules[i].condition, c, d)
  }

  lemma PenaltiesAppend(tensions: seq<Rule>, rule: Rule)
    ensures Penalties(tensions + [rule]) == Penalties(tensions) + rule.penalty
  {
    assert (tensions + [rule])[..|tensions|] == tensions;
  }

  lemma {:induction false} PenaltiesMonotone(rules: seq<Rule>, test: Condition -> bool, other: Condition -> bool)
    requires forall i | 0 <= i < |rules| :: test(rules[i].condition) ==> other(rules[i].condition)
    ensures Penalties(Selected(rules, test)) <= Penalties(Selected(rules, other))
    decreases |rules|
  {
    if rules != [] {
      var (init, last) := (rules[..|rules| - 1], rules[|rules| - 1]);
      PenaltiesMonotone(init, test, other);
      PenaltiesAppend(Selected(init, test), last);
      PenaltiesAppend(Selected(init, other), last);
    }
  }

  /** If every rule that fires for one pair also fires for another, the other pair has no less friction. */
  lemma FrictionMonotone(rules: seq<Rule>, a: SignalMap, b: SignalMap, c: SignalMap, d: SignalMap)
    requires FiresToo(rules, a, b, c, d)
    ensures FrictionOf(rules, a, b) <= FrictionOf(rules, c, d)
  {
    PenaltiesMonotone(rules, Between(a, b), Between(c, d));
  }

  // ---- what the friction is

  /** The friction of one rule. */
  lemma FrictionOfOne(rule: Rule, a: SignalMap, b: SignalMap)
    ensures FrictionOf([], a, b) == 0
    ensures FrictionOf([rule], a, b) ==
      if !Holds(rule.condition, a, b) then 0 else if rule.penalty > 10 then 10 else rule.penalty
  {
    var test := Between(a, b);
    assert [rule][..|[rule]| - 1] == [];
    assert Selected([], test) == [];
    assert Selected([rule], test) == if test(rule.condition) then [] + [rule] else [];
    PenaltiesAppend([], rule);
  }

  lemma {:induction false} SelectedAppend(xs: seq<Rule>, ys: seq<Rule>, test: Condition -> bool)
    ensures Selected(xs + ys, test) == Selected(xs, test) + Selected(ys, test)
    decreases |ys|
  {
    if ys == [] {
      assert xs + ys == xs;
    } else {
      SelectedAppend(xs, ys[..|ys| - 1], test);
      assert (xs + ys)[..|xs + ys| - 1] == xs + ys[..|ys| - 1];
    }
  }

  lemma {:induction false} PenaltiesConcat(xs: seq<Rule>, ys: seq<Rule>)
    ensures Penalties(xs + ys) == Penalties(xs) + Penalties(ys)
    decreases |ys|
  {
    if ys == [] {
      assert xs + ys == xs;
    } else {
      PenaltiesConcat(xs, ys[..|ys| - 1]);
      assert (xs + ys)[..|xs + ys| - 1] == xs + ys[..|ys| - 1];
    }
  }

  /** The friction of two tables together is the sum of theirs, but at most 10. */
  lemma FrictionSplits(xs: seq<Rule>, ys: seq<Rule>, a: SignalMap, b: SignalMap)
    ensures
      var sum := FrictionOf(xs, a, b) + FrictionOf(ys, a, b);
      FrictionOf(xs + ys, a, b) == if sum > 10 then 10 else sum
  {
    SelectedAppend(xs, ys, Between(a, b));
    PenaltiesConcat(Firing(xs, a, b), Firing(ys, a, b));
  }

  /** The tensions are the rules that hold, each at its place in the table. */
  lemma {:induction false} TensionsArePlaces(rules: seq<Rule>, a: SignalMap, b: SignalMap) returns (places: seq<nat>)
    ensures |places| == |Firing(rules, a, b)|
    ensures forall j | 0 <= j < |places| :: places[j] < |rules| && Firing(rules, a, b)[j] == rules[places[j]]
    ensures forall j, k | 0 <= j < k < |places| :: places[j] < places[k]
    ensures forall i: nat | i < |rules| :: i in places <==> Holds(rules[i].condition, a, b)
    decreases |rules|
  {
    if rules == [] {
      places := [];
    } else {
      places := TensionsArePlaces(rules[..|rules| - 1], a, b);
      if Holds(rules[|rules| - 1].condition, a, b) {
        places := places + [|rules| - 1];
      }
    }
  }

  const DEPTH_RULE: nat := 1

  /** A rule on a distance needs both values. */
  lemma DepthRuleIff(a: SignalMap, b: SignalMap)
    ensures RULES[DEPTH_RULE].id == "emotional_depth_gap"
    ensures Holds(RULES[DEPTH_RULE].condition, a, b) <==>
      && EmotionalDepth in a && EmotionalDepth in b
      && (a[EmotionalDepth] - b[EmotionalDepth] >= 4.0 || b[EmotionalDepth] - a[EmotionalDepth] >= 4.0)
  {
    var w := CORE_RULES[DEPTH_RULE].condition;
    assert RULES[DEPTH_RULE] == CORE_RULES[DEPTH_RULE];
    TwoAtoms(w.needs[0], w.needs[1], a, b);
    assert w.needs == [w.needs[0], w.needs[1]];
    assert w.cases[0] == [Apart(EmotionalDepth, 4.0)];
    assert AllHold(w.cases[0], a, b) <==> AtomHolds(Apart(EmotionalDepth, 4.0), a, b) by {
      assert Apart(EmotionalDepth, 4.0) in w.cases[0];
    }
    assert SomeCase(w, a, b) <==> AllHold(w.cases[0], a, b);
  }

  lemma TwoAtoms(x: Atom, y: Atom, a: SignalMap, b: SignalMap)
    ensures AllHold([x, y], a, b) <==> AtomHolds(x, a, b) && AtomHolds(y, a, b)
  {
    assert [x, y][0] in [x, y] && [x, y][1] in [x, y];
  }

  // ---- keyword triggers

  /** `applyKeywordTriggers`, given whether the texts contain a fusion or a boundaries keyword. */
  function Triggered(s: SignalMap, fusionHit: bool, boundariesHit: bool): SignalMap {
    var t := if fusionHit then s[FusionNeed := Max(Num(s, FusionNeed), 9.0)] else s;
    if boundariesHit then t[BoundariesNeed := Max(Num(s, BoundariesNeed), 8.0)] else t
  }

  /** No rule asks that a signal be low which the triggers raise, or looks at its distance. */
  predicate RaisedOnlyHelps(x: Atom) {
    x.Known? || x.AtLeast? || (x.key != FusionNeed && x.key != BoundariesNeed)
  }

  predicate AllRaisedOnlyHelp(xs: seq<Atom>) { forall i | 0 <= i < |xs| :: RaisedOnlyHelps(xs[i]) }

  predicate TriggersOnlyHelp(w: Condition) {
    AllRaisedOnlyHelp(w.needs) && forall i | 0 <= i < |w.cases| :: AllRaisedOnlyHelp(w.cases[i])
  }

  lemma TriggersRaise(s: SignalMap, fusionHit: bool, boundariesHit: bool, k: Signal)
    ensures
      var t := Triggered(s, fusionHit, boundariesHit);
      && (k in s ==> k in t)
      && (k != FusionNeed && k != BoundariesNeed ==> Num(t, k) == Num(s, k))
      && Num(s, k) <= Num(t, k)
  {}

  lemma AtomStays(x: Atom, a: SignalMap, b: SignalMap, fa: bool, ba: bool, fb: bool, bb: bool)
    requires RaisedOnlyHelps(x) && AtomHolds(x, a, b)
    ensures AtomHolds(x, Triggered(a, fa, ba), Triggered(b, fb, bb))
  {
    TriggersRaise(a, fa, ba, x.key);
    TriggersRaise(b, fb, bb, x.key);
  }

  lemma AllStay(xs: seq<Atom>, a: SignalMap, b: SignalMap, fa: bool, ba: bool, fb: bool, bb: bool)
    requires AllRaisedOnlyHelp(xs) && AllHold(xs, a, b)
    ensures AllHold(xs, Triggered(a, fa, ba), Triggered(b, fb, bb))
  {
    forall x | x in xs
      ensures AtomHolds(x, Triggered(a, fa, ba), Triggered(b, fb, bb))
    {
      AtomStays(x, a, b, fa, ba, fb, bb);
    }
  }

  lemma TriggersKeepHolding(w: Condition, a: SignalMap, b: SignalMap, fa: bool, ba: bool, fb: bool, bb: bool)
    requires TriggersOnlyHelp(w) && Holds(w, a, b)
    ensures Holds(w, Triggered(a, fa, ba), Triggered(b, fb, bb))
  {
    AllStay(w.needs, a, b, fa, ba, fb, bb);
    var i :| 0 <= i < |w.cases| && AllHold(w.cases[i], a, b);
    AllStay(w.cases[i], a, b, fa, ba, fb, bb);
    assert AllHold(w.cases[i], Triggered(a, fa, ba), Triggered(b, fb, bb));
  }

  lemma CoreRulesOnlyHelped(i: nat)
    requires i < |CORE_RULES|
    ensures TriggersOnlyHelp(CORE_RULES[i].condition)
  {}

  lemma GapRulesOnlyHelped(i: nat)
    requires i < |GAP_RULES|
    ensures TriggersOnlyHelp(GAP_RULES[i].condition)
  {}

  lemma TemperamentRulesOnlyHelped(i: nat)
    requires i < |TEMPERAMENT_RULES|
    ensures TriggersOnlyHelp(TEMPERAMENT_RULES[i].condition)
  {}

  lemma LifestyleRulesOnlyHelped(i: nat)
    requires i < |LIFESTYLE_RULES|
    ensures TriggersOnlyHelp(LIFESTYLE_RULES[i].condition)
  {}

  lemma ConflictRulesOnlyHelped(i: nat)
    requires i < |CONFLICT_RULES|
    ensures TriggersOnlyHelp(CONFLICT_RULES[i].condition)
  {}

  lemma RelatingRulesOnlyHelped(i: nat)
    requires i < |RELATING_RULES|
    ensures TriggersOnlyHelp(RELATING_RULES[i].condition)
  {}

  lemma TableOnlyHelped(i: nat)
    requires i < |RULES|
    ensures TriggersOnlyHelp(RULES[i].condition)
  {
    var part1 := |CORE_RULES|;
    var part2 := part1 + |GAP_RULES|;
    var part3 := part2 + |TEMPERAMENT_RULES|;
    var part4 := part3 + |LIFESTYLE_RULES|;
    var part5 := part4 + |CONFLICT_RULES|;
    if i < part1 {
      CoreRulesOnlyHelped(i);
    } else if i < part2 {
      GapRulesOnlyHelped(i - part1);
    } else if i < part3 {
      TemperamentRulesOnlyHelped(i - part2);
    } else if i < part4 {
      LifestyleRulesOnlyHelped(i - part3);
    } else if i < part5 {
      ConflictRulesOnlyHelped(i - part4);
    } else {
      RelatingRulesOnlyHelped(i - part5);
    }
  }

  /** Keyword triggers never remove a tension and never lower the friction. */
  lemma TriggersNeverLowerFriction(a: SignalMap, b: SignalMap, fa: bool, ba: bool, fb: bool, bb: bool)
    ensures FiresToo(RULES, a, b, Triggered(a, fa, ba), Triggered(b, fb, bb))
    ensures FrictionOf(RULES, a, b) <= FrictionOf(RULES, Triggered(a, fa, ba), Triggered(b, fb, bb))
  {
    forall i | 0 <= i < |RULES| && Holds(RULES[i].condition, a, b)
      ensures Holds(RULES[i].condition, Triggered(a, fa, ba), Triggered(b, fb, bb))
    {
      TableOnlyHelped(i);
      TriggersKeepHolding(RULES[i].condition, a, b, fa, ba, fb, bb);
    }
    FrictionMonotone(RULES, a, b, Triggered(a, fa, ba), Triggered(b, fb, bb));
  }

  /** What the triggers leave: the signal that a text speaks of is at least 9, or 8, and no more than it must be;
      every other signal is as it was. */
  lemma TriggersRaiseTo(s: SignalMap, fusionHit: bool, boundariesHit: bool, k: Signal)
    ensures
      var t := Triggered(s, fusionHit, boundariesHit);
      var least :=
        if k == FusionNeed && fusionHit then 9.0 else if k == BoundariesNeed && boundariesHit then 8.0 else 0.0;
      && (least > 0.0 ==> k in t && t[k] >= least && (t[k] == least || (k in s && t[k] == s[k])))
      && (least == 0.0 ==> (k in t <==> k in s) && (k in s ==> t[k] == s[k]))
  {}

  const FUSION_RULE: nat := 3

  /** A text that asks for fusion against one that asks for boundaries: the penalty of that rule at least. */
  lemma TriggeredPairClashes(a: SignalMap, b: SignalMap, ba: bool, fb: bool)
    ensures RULES[FUSION_RULE].id == "fusion_vs_boundaries"
    ensures Holds(RULES[FUSION_RULE].condition, Triggered(a, true, ba), Triggered(b, fb, true))
    ensures FrictionOf(RULES, Triggered(a, true, ba), Triggered(b, fb, true)) >= 7
  {
    var (c, d) := (Triggered(a, true, ba), Triggered(b, fb, true));
    var (before, rule, behind) := (RULES[..FUSION_RULE], RULES[FUSION_RULE], RULES[FUSION_RULE + 1..]);
    assert rule == CORE_RULES[FUSION_RULE];
    var x := rule.condition.cases[0];
    assert x == [x[0], x[1]];
    TwoAtoms(x[0], x[1], c, d);
    TriggersRaiseTo(a, true, ba, FusionNeed);
    TriggersRaiseTo(b, fb, true, BoundariesNeed);
    assert AllHold(x, c, d) && SomeCase(rule.condition, c, d);
    assert RULES == (before + [rule]) + behind;
    FrictionSplits(before + [rule], behind, c, d);
    FrictionSplits(before, [rule], c, d);
    FrictionOfOne(rule, c, d);
  }

  /** Applying the triggers of one text twice is applying them once. */
  lemma TriggersIdempotent(s: SignalMap, fusionHit: bool, boundariesHit: bool)
    ensures
      var t := Triggered(s, fusionHit, boundariesHit);
      Triggered(t, fusionHit, boundariesHit) == t
  {}

  // ---- hidden signals

  function Hide(s: SignalMap, hidden: set<Signal>): SignalMap { s - hidden }

  /** The test cannot come to hold by hiding signals: it asks for more than an absent signal counts as, or the
      rule needs its signal on both sides. */
  predicate Guarded(w: Condition, x: Atom) {
    x.Known? || (x.AtLeast? && x.limit > 0.0) || (|w.needs| >= 2 && [w.needs[0], w.needs[1]] == Both(x.key))
  }

  predicate AllGuarded(w: Condition, xs: seq<Atom>) { forall i | 0 <= i < |xs| :: Guarded(w, xs[i]) }

  predicate HidingSafe(w: Condition) {
    (forall i | 0 <= i < |w.needs| :: w.needs[i].Known?) && forall i | 0 <= i < |w.cases| :: AllGuarded(w, w.cases[i])
  }

  lemma HiddenNum(s: SignalMap, hidden: set<Signal>, k: Signal)
    ensures k in Hide(s, hidden) ==> k in s && Num(Hide(s, hidden), k) == Num(s, k)
    ensures k !in Hide(s, hidden) ==> Num(Hide(s, hidden), k) == 0.0
  {}

  lemma GuardedHeld(w: Condition, x: Atom, a: SignalMap, b: SignalMap, ka: set<Signal>, kb: set<Signal>)
    requires Guarded(w, x) && AllHold(w.needs, Hide(a, ka), Hide(b, kb)) && AtomHolds(x, Hide(a, ka), Hide(b, kb))
    ensures AtomHolds(x, a, b)
  {
    HiddenNum(a, ka, x.key);
    HiddenNum(b, kb, x.key);
    if !x.Known? && !(x.AtLeast? && x.limit > 0.0) {
      assert [w.needs[0], w.needs[1]][0] == Known(A, x.key) && [w.needs[0], w.needs[1]][1] == Known(B, x.key);
      assert w.needs[0] in w.needs && w.needs[1] in w.needs;
      assert AtomHolds(w.needs[0], Hide(a, ka), Hide(b, kb)) && AtomHolds(w.needs[1], Hide(a, ka), Hide(b, kb));
    }
  }

  lemma AllGuardedHeld(w: Condition, xs: seq<Atom>, a: SignalMap, b: SignalMap, ka: set<Signal>, kb: set<Signal>)
    requires AllGuarded(w, xs) && AllHold(w.needs, Hide(a, ka), Hide(b, kb)) && AllHold(xs, Hide(a, ka), Hide(b, kb))
    ensures AllHold(xs, a, b)
  {
    forall x | x in xs
      ensures AtomHolds(x, a, b)
    {
      GuardedHeld(w, x, a, b, ka, kb);
    }
  }

  lemma HeldBeforeHiding(w: Condition, a: SignalMap, b: SignalMap, ka: set<Signal>, kb: set<Signal>)
    requires HidingSafe(w) && Holds(w, Hide(a, ka), Hide(b, kb))
    ensures Holds(w, a, b)
  {
    AllGuardedHeld(w, w.needs, a, b, ka, kb);
    var i :| 0 <= i < |w.cases| && AllHold(w.cases[i], Hide(a, ka), Hide(b, kb));
    AllGuardedHeld(w, w.cases[i], a, b, ka, kb);
    assert AllHold(w.cases[i], a, b);
  }

  /** Where the rule on attachment and directness stands in the table. */
  const ATTACHMENT_RULE: nat := 5

  lemma CoreRulesHidingSafe(i: nat)
    requires i < |CORE_RULES| && i != ATTACHMENT_RULE
    ensures HidingSafe(CORE_RULES[i].condition)
  {}

  lemma GapRulesHidingSafe(i: nat)
    requires i < |GAP_RULES|
    ensures HidingSafe(GAP_RULES[i].condition)
  {}

  lemma TemperamentRulesHidingSafe(i: nat)
    requires i < |TEMPERAMENT_RULES|
    ensures HidingSafe(TEMPERAMENT_RULES[i].condition)
  {}

  lemma LifestyleRulesHidingSafe(i: nat)
    requires i < |LIFESTYLE_RULES|
    ensures HidingSafe(LIFESTYLE_RULES[i].condition)
  {}

  lemma ConflictRulesHidingSafe(i: nat)
    requires i < |CONFLICT_RULES|
    ensures HidingSafe(CONFLICT_RULES[i].condition)
  {}

  lemma RelatingRulesHidingSafe(i: nat)
    requires i < |RELATING_RULES|
    ensures HidingSafe(RELATING_RULES[i].condition)
  {}

  lemma TableHidingSafe(i: nat)
    requires i < |RULES| && i != ATTACHMENT_RULE
    ensures HidingSafe(RULES[i].condition)
  {
    var part1 := |CORE_RULES|;
    var part2 := part1 + |GAP_RULES|;
    var part3 := part2 + |TEMPERAMENT_RULES|;
    var part4 := part3 + |LIFESTYLE_RULES|;
    var part5 := part4 + |CONFLICT_RULES|;
    if i < part1 {
      CoreRulesHidingSafe(i);
    } else if i < part2 {
      GapRulesHidingSafe(i - part1);
    } else if i < part3 {
      TemperamentRulesHidingSafe(i - part2);
    } else if i < part4 {
      LifestyleRulesHidingSafe(i - part3);
    } else if i < part5 {
      ConflictRulesHidingSafe(i - part4);
    } else {
      RelatingRulesHidingSafe(i - part5);
    }
  }

  /** Leaving signals out creates no tension, for every rule but one. */
  lemma HidingCreatesNoTension(i: nat, a: SignalMap, b: SignalMap, ka: set<Signal>, kb: set<Signal>)
    requires i < |RULES| && i != ATTACHMENT_RULE && Holds(RULES[i].condition, Hide(a, ka), Hide(b, kb))
    ensures Holds(RULES[i].condition, a, b)
  {
    TableHidingSafe(i);
    HeldBeforeHiding(RULES[i].condition, a, b, ka, kb);
  }

  predicate InsecureAgainstDirect(a: SignalMap, b: SignalMap) {
    Num(a, AttachmentSecurity) <= 2.0 && Num(b, Directness) >= 8.0
  }

  /** The one rule reads an absent attachmentSecurity as 0, and so as low. */
  lemma AttachmentRuleIff(a: SignalMap, b: SignalMap)
    ensures RULES[ATTACHMENT_RULE].id == "attachment_anxiety_vs_directness"
    ensures Holds(RULES[ATTACHMENT_RULE].condition, a, b) <==>
      InsecureAgainstDirect(a, b) || InsecureAgainstDirect(b, a)
  {
    var w := CORE_RULES[ATTACHMENT_RULE].condition;
    assert RULES[ATTACHMENT_RULE] == CORE_RULES[ATTACHMENT_RULE];
    TwoAtoms(w.cases[0][0], w.cases[0][1], a, b);
    TwoAtoms(w.cases[1][0], w.cases[1][1], a, b);
    assert w.cases[0] == [w.cases[0][0], w.cases[0][1]] && w.cases[1] == [w.cases[1][0], w.cases[1][1]];
    assert AllHold(w.needs, a, b);
    assert SomeCase(w, a, b) <==> AllHold(w.cases[0], a, b) || AllHold(w.cases[1], a, b);
  }

  /** Exactly when leaving out one side's attachmentSecurity makes that rule fire: the signal was there and
      not low, the other side is direct, and the rule did not fire the other way round. */
  lemma HidingAttachmentIff(a: SignalMap, b: SignalMap)
    ensures
      var w := RULES[ATTACHMENT_RULE].condition;
      Holds(w, Hide(a, {AttachmentSecurity}), b) && !Holds(w, a, b) <==>
        && AttachmentSecurity in a && a[AttachmentSecurity] > 2.0
        && Num(b, Directness) >= 8.0
        && !InsecureAgainstDirect(b, a)
  {
    AttachmentRuleIff(a, b);
    AttachmentRuleIff(Hide(a, {AttachmentSecurity}), b);
  }
}
