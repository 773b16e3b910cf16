/** Extracted signals of a person, shared by the scoring rules. */
module Signals {
  import opened Basics

  datatype Signal =
    | Ambition | SocialBattery | HealthBodyConsciousness | EmotionalDepth | AttachmentSecurity | Directness
    | Independence | Traditionalism | FinancialMindset | RelationshipClarity | Spirituality | LifestylePace
    | PhysicalPriority | StatusOrientation | FusionNeed | BoundariesNeed | EmpathyCompassion
    | VulnerabilityOpenness | EmotionalRegulation | PhysicalAffectionStyle | HumorPlayfulness
    | IntellectualCuriosity | CreativeExpression | PhysicalActivityLevel | DomesticComfort | AdventureNovelty
    | CasualIntimacyIntent | SupportExchangeOrientation | SupportProviderOrientation
    | SupportRecipientOrientation | ReligiousObservance | EducationLevel | HonestyIntegrity | Chronotype
    | PhysicalTypePreference | RepairSkills | ForgivenessStyle | StressResponse | JealousySecurity
    | ListeningPresence | EmotionalExpression | GrowthMindset | SelfAwareness | PatienceTolerance
    | IntimacyPacing | MonogamyAlignment | FamilyEnmeshment | FriendCoupleBalance | AloneTimeNeed
    | ConflictStyle

  /** A signal that is null, undefined or not a finite number is absent. */
  type SignalMap = map<Signal, real>

  function Get(s: SignalMap, k: Signal): Option<real> { if k in s then Some(s[k]) else None }

  /** `num`: an absent signal counts as 0. */
  function Num(s: SignalMap, k: Signal): real { if k in s then s[k] else 0.0 }

  function GetOr(s: SignalMap, k: Signal, fallback: real): real { if k in s then s[k] else fallback }

  predicate Comparable(a: SignalMap, b: SignalMap, k: Signal) { k in a && k in b }

  function Gap(a: SignalMap, b: SignalMap, k: Signal): real
    requires Comparable(a, b, k)
  {
    Abs(a[k] - b[k])
  }
}
