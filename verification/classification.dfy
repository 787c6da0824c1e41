/** `categorize_contact` of scripts/strategic-contact-scoring.py: from the
    seven scores of a contact to an engagement strategy (tier, category,
    approaches, campaign segments, pathway, success probability, resource
    level, timing recommendation and risks). Every rule is a threshold test,
    first match wins where the source uses `if/elif`. */
module Classification {
  import opened Strings
  import opened Scoring

  datatype Tier = ImmediatePriority | ImportantInfluencers | NetworkBuilders | LongTermCultivation

  function TierLabel(t: Tier): string {
    match t
    case ImmediatePriority => "Tier 1: Immediate Priority"
    case ImportantInfluencers => "Tier 2: Important Influencers"
    case NetworkBuilders => "Tier 3: Network Builders"
    case LongTermCultivation => "Tier 4: Long-term Cultivation"
  }

  /** 1 for the most urgent tier, 4 for the least. */
  function TierRank(t: Tier): (n: nat)
    ensures 1 <= n <= 4
  {
    match t
    case ImmediatePriority => 1
    case ImportantInfluencers => 2
    case NetworkBuilders => 3
    case LongTermCultivation => 4
  }

  datatype Category = Champions | Gatekeepers | Amplifiers | Validators | Blockers | Convincibles

  function CategoryLabel(c: Category): string {
    match c
    case Champions => "Champions"
    case Gatekeepers => "Gatekeepers"
    case Amplifiers => "Amplifiers"
    case Validators => "Validators"
    case Blockers => "Blockers"
    case Convincibles => "Convincibles"
  }

  datatype Pathway = DirectContact | SocialMediaEngagement | FormalRequest | WarmIntroduction

  function PathwayLabel(p: Pathway): string {
    match p
    case DirectContact => "Direct Contact"
    case SocialMediaEngagement => "Social Media Engagement"
    case FormalRequest => "Formal Request"
    case WarmIntroduction => "Warm Introduction"
  }

  datatype Touch = HighTouch | MediumTouch | LowTouch

  function TouchLabel(t: Touch): string {
    match t
    case HighTouch => "High Touch"
    case MediumTouch => "Medium Touch"
    case LowTouch => "Low Touch"
  }

  datatype Window = Immediate | ShortTerm | LongTerm

  function WindowLabel(w: Window): string {
    match w
    case Immediate => "Immediate (1-2 weeks)"
    case ShortTerm => "Short-term (1-2 months)"
    case LongTerm => "Long-term (3-6 months)"
  }

  const DirectApproach: string := "Direct Approach"
  const EventInvitation: string := "Event Invitation"
  const AdvisoryRole: string := "Advisory Role"
  const MediaCollaboration: string := "Media Collaboration"
  const ResearchPartnership: string := "Research Partnership"

  const YouthJusticeChampionsCampaign: string := "Youth Justice Champions Campaign"
  const PoliticalEngagementCampaign: string := "Political Engagement Campaign"
  const MediaOutreachCampaign: string := "Media Outreach Campaign"
  const AcademicAllianceCampaign: string := "Academic Alliance Campaign"

  const HighReputationRisk: string := "High reputation risk"
  const PoliticalSensitivities: string := "Political sensitivities"
  const LowResponseProbability: string := "Low response probability"

  /** The `EngagementStrategy` record. */
  datatype EngagementStrategy = EngagementStrategy(
    tier: Tier,
    category: Category,
    approaches: seq<string>,
    segments: seq<string>,
    pathway: Pathway,
    successProbability: real,
    resource: Touch,
    timing: Window,
    risks: seq<string>)

  function TierOf(composite: real): (t: Tier)
    ensures t == ImmediatePriority <==> 80.0 <= composite
    ensures t == ImportantInfluencers <==> 65.0 <= composite < 80.0
    ensures t == NetworkBuilders <==> 50.0 <= composite < 65.0
    ensures t == LongTermCultivation <==> composite < 50.0
  {
    if composite >= 80.0 then ImmediatePriority
    else if composite >= 65.0 then ImportantInfluencers
    else if composite >= 50.0 then NetworkBuilders
    else LongTermCultivation
  }

  function CategoryOf(s: ScoreVector): (c: Category)
    ensures c == Champions <==> s.relevance >= 70.0 && s.influence >= 60.0
    ensures c == Gatekeepers <==> s.influence >= 70.0 && s.relevance < 70.0
    ensures c == Amplifiers <==> 50.0 <= s.influence < 70.0 && s.accessibility >= 70.0 && !(s.relevance >= 70.0 && s.influence >= 60.0)
    ensures c == Validators <==> s.relevance >= 60.0 && s.influence < 70.0 && !(s.relevance >= 70.0 && s.influence >= 60.0)
                                 && !(s.accessibility >= 70.0 && s.influence >= 50.0)
    ensures c in {Blockers, Convincibles} <==> s.influence < 70.0 && s.relevance < 60.0
                                               && !(s.accessibility >= 70.0 && s.influence >= 50.0)
    ensures c == Blockers <==> c in {Blockers, Convincibles} && (s.accessibility <= 40.0 || s.risk >= 60.0)
  {
    if s.relevance >= 70.0 && s.influence >= 60.0 then Champions
    else if s.influence >= 70.0 then Gatekeepers
    else if s.accessibility >= 70.0 && s.influence >= 50.0 then Amplifiers
    else if s.relevance >= 60.0 then Validators
    else if s.accessibility <= 40.0 || s.risk >= 60.0 then Blockers
    else Convincibles
  }

  /** The `"media" in category.lower()` test the approaches and segments use. */
  predicate MediaCategory(c: Category) {
    Contains(Lower(CategoryLabel(c)), "media")
  }

  function Approaches(s: ScoreVector, c: Category): (r: seq<string>)
    ensures Distinct(r) && |r| <= 5
    ensures DirectApproach in r <==> s.accessibility >= 70.0
    ensures EventInvitation in r <==> s.influence >= 60.0
    ensures AdvisoryRole in r <==> s.influence >= 60.0
    ensures MediaCollaboration in r <==> MediaCategory(c) || s.influence >= 50.0
    ensures ResearchPartnership in r <==> s.strategicValue >= 60.0
  {
    (if s.accessibility >= 70.0 then [DirectApproach] else [])
      + (if s.influence >= 60.0 then [EventInvitation, AdvisoryRole] else [])
      + (if MediaCategory(c) || s.influence >= 50.0 then [MediaCollaboration] else [])
      + (if s.strategicValue >= 60.0 then [ResearchPartnership] else [])
  }

  function Segments(s: ScoreVector, c: Category): (r: seq<string>)
    ensures Distinct(r) && |r| <= 4
    ensures YouthJusticeChampionsCampaign in r <==> s.relevance >= 70.0
    ensures PoliticalEngagementCampaign in r <==> s.influence >= 70.0
    ensures MediaOutreachCampaign in r <==> MediaCategory(c)
    ensures AcademicAllianceCampaign in r <==> s.strategicValue >= 60.0
  {
    (if s.relevance >= 70.0 then [YouthJusticeChampionsCampaign] else [])
      + (if s.influence >= 70.0 then [PoliticalEngagementCampaign] else [])
      + (if MediaCategory(c) then [MediaOutreachCampaign] else [])
      + (if s.strategicValue >= 60.0 then [AcademicAllianceCampaign] else [])
  }

  function PathwayOf(s: ScoreVector): (p: Pathway)
    ensures p == DirectContact <==> s.accessibility >= 80.0
    ensures p == SocialMediaEngagement <==> 60.0 <= s.accessibility < 80.0
    ensures p == FormalRequest <==> s.accessibility < 60.0 && s.influence >= 70.0
    ensures p == WarmIntroduction <==> s.accessibility < 60.0 && s.influence < 70.0
  {
    if s.accessibility >= 80.0 then DirectContact
    else if s.accessibility >= 60.0 then SocialMediaEngagement
    else if s.influence >= 70.0 then FormalRequest
    else WarmIntroduction
  }

  /** `min((accessibility + timing + (100 - risk)) / 3, 95)` */
  function SuccessProbability(s: ScoreVector): (r: real)
    ensures r <= 95.0
    ensures r == 95.0 <==> s.accessibility + s.timing + (100.0 - s.risk) >= 285.0
    ensures r < 95.0 ==> 3.0 * r == s.accessibility + s.timing + (100.0 - s.risk)
  {
    Min((s.accessibility + s.timing + (100.0 - s.risk)) / 3.0, 95.0)
  }

  function TouchOf(composite: real): (t: Touch)
    ensures t == HighTouch <==> 80.0 <= composite
    ensures t == MediumTouch <==> 60.0 <= composite < 80.0
    ensures t == LowTouch <==> composite < 60.0
  {
    if composite >= 80.0 then HighTouch
    else if composite >= 60.0 then MediumTouch
    else LowTouch
  }

  function WindowOf(timing: real): (w: Window)
    ensures w == Immediate <==> 80.0 <= timing
    ensures w == ShortTerm <==> 60.0 <= timing < 80.0
    ensures w == LongTerm <==> timing < 60.0
  {
    if timing >= 80.0 then Immediate
    else if timing >= 60.0 then ShortTerm
    else LongTerm
  }

  function Risks(s: ScoreVector): (r: seq<string>)
    ensures Distinct(r)
    ensures HighReputationRisk in r <==> s.risk >= 60.0
    ensures PoliticalSensitivities in r <==> s.risk >= 40.0
    ensures LowResponseProbability in r <==> s.accessibility <= 40.0
  {
    (if s.risk >= 60.0 then [HighReputationRisk] else [])
      + (if s.risk >= 40.0 then [PoliticalSensitivities] else [])
      + (if s.accessibility <= 40.0 then [LowResponseProbability] else [])
  }

  /** `categorize_contact` */
  function Categorize(s: ScoreVector): (e: EngagementStrategy)
    ensures e.successProbability <= 95.0
    ensures e.category in {Champions, Gatekeepers, Amplifiers} ==> s.influence >= 50.0
    ensures Distinct(e.approaches) && Distinct(e.segments) && Distinct(e.risks)
    ensures MediaCollaboration in e.approaches <==> s.influence >= 50.0
    ensures MediaOutreachCampaign !in e.segments
  {
    var c := CategoryOf(s);
    NoCategoryMentionsMedia(c);
    EngagementStrategy(TierOf(s.composite), c, Approaches(s, c), Segments(s, c), PathwayOf(s),
                       SuccessProbability(s), TouchOf(s.composite), WindowOf(s.timing), Risks(s))
  }

  // ---------------------------------------------------------------------------
  // Properties
  // ---------------------------------------------------------------------------

  /** No category label contains "media": each lacks an 'm' or a 'd'. The
      media clauses of the approach and segment rules can never fire. */
  lemma NoCategoryMentionsMedia(c: Category)
    ensures !MediaCategory(c)
  {
    var name := CategoryLabel(c);
    var k := if c == Validators then 0 else 2;
    var letter := "media"[k];
    assert IsLowerChar(letter) && letter !in name && UpperChar(letter) !in name;
    LowerLacks(name, letter);
    MissingCharNotContained(Lower(name), "media", k);
  }

  /** A higher composite never lands in a less urgent tier. */
  lemma TierMonotone(a: real, b: real)
    requires a <= b
    ensures TierRank(TierOf(b)) <= TierRank(TierOf(a))
  {
  }

  /** The same monotonicity for the resource level, which uses a lower middle threshold (60 against 65). */
  lemma TouchFollowsTier(composite: real)
    ensures TouchOf(composite) == HighTouch <==> TierOf(composite) == ImmediatePriority
    ensures TierOf(composite) == ImportantInfluencers ==> TouchOf(composite) == MediumTouch
    ensures TouchOf(composite) == LowTouch ==> TierOf(composite) in {NetworkBuilders, LongTermCultivation}
  {
  }

  /** Every contact with influence of at least 70 is a Champion or a Gatekeeper. */
  lemma HighInfluenceCategory(s: ScoreVector)
    requires s.influence >= 70.0
    ensures CategoryOf(s) in {Champions, Gatekeepers}
  {
  }

  /** For scores the scorers can produce (risk at most 55, accessibility at
      least 40), a contact is a Blocker exactly when its accessibility is the
      floor value 40 and neither its influence nor its relevance is high. */
  lemma BlockersOfAttainableScores(s: ScoreVector)
    requires Attainable(s)
    ensures CategoryOf(s) == Blockers <==> s.accessibility == 40.0 && s.influence < 70.0 && s.relevance < 60.0
  {
  }

  /** The risks of attainable scores never include a high reputation risk, and
      a political sensitivity is flagged exactly from a risk of 40. */
  lemma AttainableRisks(s: ScoreVector)
    requires Attainable(s)
    ensures HighReputationRisk !in Categorize(s).risks
    ensures PoliticalSensitivities in Categorize(s).risks <==> s.risk >= 40.0
    ensures LowResponseProbability in Categorize(s).risks <==> s.accessibility == 40.0
  {
  }

  /** With attainable scores the success probability lies between 145/3 and 95. */
  lemma SuccessProbabilityRange(s: ScoreVector)
    requires Attainable(s)
    ensures 145.0 / 3.0 <= Categorize(s).successProbability <= 95.0
  {
  }

  /** Raising accessibility or timing, or lowering risk, never lowers the success probability. */
  lemma SuccessProbabilityMonotone(s: ScoreVector, t: ScoreVector)
    requires s.accessibility <= t.accessibility && s.timing <= t.timing && t.risk <= s.risk
    ensures SuccessProbability(s) <= SuccessProbability(t)
  {
  }

  /** An accessible contact is always reached directly or on social media. */
  lemma AccessiblePathway(s: ScoreVector)
    ensures PathwayOf(s) in {DirectContact, SocialMediaEngagement} <==> s.accessibility >= 60.0
  {
  }
}
