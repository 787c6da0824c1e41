/** The scoring engine of scripts/strategic-contact-scoring.py.

    A contact is a row of the consolidated table: column name to cell text,
    with every missing cell read as "" (the script fills missing values with
    '' before scoring). Six scorers each sum fixed bonuses for keyword hits
    and cap the sum at 100; the composite is the weighted sum of five of them.
    Scores are exact reals here, not IEEE doubles.
 */
module Scoring {
  import opened Strings

  type Row = map<string, string>

  /** `str(contact.get(key, ''))` on a filled row. */
  function Field(row: Row, key: string): string {
    if key in row then row[key] else ""
  }

  /** The cells the scorers read, each already `str()`-converted ("" when missing). */
  datatype Contact = Contact(
    title: string,
    organization: string,
    sector: string,
    campaignRelevance: string,
    email: string,
    linkedinUrl: string,
    contactInfo: string,
    connectedDate: string)

  function ContactOf(row: Row): Contact {
    Contact(Field(row, "title"), Field(row, "organization"), Field(row, "sector"),
            Field(row, "campaign_relevance"), Field(row, "email"), Field(row, "linkedin_url"),
            Field(row, "contact_info"), Field(row, "connected_date"))
  }

  function Min(a: real, b: real): real {
    if a <= b then a else b
  }

  /** Sum of the bonuses of every (keyword, bonus) pair whose keyword occurs in `text`. */
  function SumMatched(text: string, table: seq<(string, real)>): (r: real)
    requires forall k :: 0 <= k < |table| ==> table[k].1 > 0.0
    ensures r >= 0.0
    ensures r == 0.0 <==> forall k :: 0 <= k < |table| ==> !Contains(text, table[k].0)
  {
    if |table| == 0 then 0.0
    else (if Contains(text, table[0].0) then table[0].1 else 0.0) + SumMatched(text, table[1..])
  }

  // ---------------------------------------------------------------------------
  // Keyword tables (declaration order matters where a rule is first-match)
  // ---------------------------------------------------------------------------

  const HighRelevance: seq<string> := [
    "youth justice", "juvenile justice", "youth detention", "young offenders",
    "children's court", "youth advocacy", "juvenile reform", "youth crime",
    "detention centre", "first nations youth", "indigenous youth",
    "children's ground", "youth at risk", "young people in custody"]

  const MediumRelevance: seq<string> := [
    "criminal justice", "justice reform", "social justice", "human rights",
    "child protection", "social work", "community services", "legal aid",
    "indigenous affairs", "first nations", "aboriginal", "torres strait",
    "disadvantaged youth", "at-risk youth", "youth services"]

  const LowRelevance: seq<string> := [
    "policy", "government", "public service", "research", "academic",
    "social impact", "community", "nonprofit", "philanthropy",
    "media", "journalism", "education", "health"]

  const RelevantOrgWords: seq<string> := ["children's ground", "justice", "youth", "juvenile"]

  const SectorRelevance: seq<(string, real)> := [
    ("campaign leader", 40.0), ("campaign partner", 30.0), ("global expert", 35.0),
    ("civil society", 20.0), ("media", 25.0), ("government", 30.0),
    ("academic", 15.0), ("legal", 25.0)]

  const HighInfluence: seq<string> := [
    "minister", "secretary", "director-general", "ceo", "chair",
    "commissioner", "chief", "president", "premier", "mp",
    "senator", "judge", "magistrate", "professor", "dean"]

  const MediumInfluence: seq<string> := [
    "director", "manager", "head of", "principal", "coordinator",
    "senior", "lead", "executive", "advisor", "consultant",
    "journalist", "editor", "producer", "researcher"]

  const SectorMultipliers: seq<(string, real)> := [
    ("government", 3.0), ("media", 2.5), ("academic", 2.0), ("nonprofit", 1.8),
    ("legal", 2.2), ("health", 1.5), ("corporate", 1.3)]

  const MediaOrgs: seq<string> := ["abc", "sbs", "guardian", "age", "smh", "four corners", "60 minutes"]
  const GovernmentOrgWords: seq<string> := ["minister", "department", "government", "public service"]
  const AcademicOrgWords: seq<string> := ["university", "professor", "research", "institute"]
  const AccessibleOrgs: seq<string> := ["abc", "sbs", "university", "foundation", "nonprofit"]

  const HighValueIndicators: seq<string> := [
    "founder", "ceo", "director", "minister", "professor",
    "editor", "columnist", "commissioner", "chair"]

  // ---------------------------------------------------------------------------
  // Youth-justice relevance
  // ---------------------------------------------------------------------------

  /** Title, organisation, sector and campaign relevance joined by blanks, lower-cased. */
  function CombinedText(c: Contact): string {
    Lower(c.title + " " + c.organization + " " + c.sector + " " + c.campaignRelevance)
  }

  /** The uncapped relevance sum: 25/10/5 per high/medium/low keyword, 20 for a
      justice-flavoured organisation, and every matching sector bonus. */
  function RelevanceSum(text: string, org: string, sector: string): (r: real)
    ensures r >= 0.0
  {
    25.0 * CountContained(text, HighRelevance) as real
      + 10.0 * CountContained(text, MediumRelevance) as real
      + 5.0 * CountContained(text, LowRelevance) as real
      + (if ContainsAny(org, RelevantOrgWords) then 20.0 else 0.0)
      + SumMatched(sector, SectorRelevance)
  }

  /** `calculate_youth_justice_relevance` */
  function YouthJusticeRelevance(c: Contact): (r: real)
    ensures 0.0 <= r <= 100.0
    ensures r == 0.0 <==> RelevanceSum(CombinedText(c), Lower(c.organization), Lower(c.sector)) == 0.0
  {
    Min(RelevanceSum(CombinedText(c), Lower(c.organization), Lower(c.sector)), 100.0)
  }

  /** Four distinct high-relevance keywords saturate the score. */
  lemma {:induction false} RelevanceSaturates(c: Contact)
    requires CountContained(CombinedText(c), HighRelevance) >= 4
    ensures YouthJusticeRelevance(c) == 100.0
  {
    var text := CombinedText(c);
    var sector := Lower(c.sector);
    assert 25.0 * CountContained(text, HighRelevance) as real >= 100.0;
    assert SumMatched(sector, SectorRelevance) >= 0.0;
  }

  /** A text containing another matches at least the same table entries. */
  lemma {:induction false} SumMatchedMonotone(a: string, b: string, table: seq<(string, real)>)
    requires forall k :: 0 <= k < |table| ==> table[k].1 > 0.0
    requires Contains(b, a)
    ensures SumMatched(a, table) <= SumMatched(b, table)
  {
    if |table| > 0 {
      SumMatchedMonotone(a, b, table[1..]);
      if Contains(a, table[0].0) {
        ContainsTransitive(b, a, table[0].0);
      }
    }
  }

  /** The relevance sum never drops when the text, organisation and sector grow. */
  lemma RelevanceSumMonotone(t: string, u: string, o: string, p: string, sec: string, sec': string)
    requires Contains(u, t) && Contains(p, o) && Contains(sec', sec)
    ensures RelevanceSum(t, o, sec) <= RelevanceSum(u, p, sec')
  {
    WeightedSumMonotone(t, u, o, p, sec, sec', HighRelevance, MediumRelevance, LowRelevance, RelevantOrgWords, SectorRelevance);
  }

  /** The shape of the relevance sum, for any keyword tables. */
  lemma WeightedSumMonotone(t: string, u: string, o: string, p: string, sec: string, sec': string,
                            hi: seq<string>, mid: seq<string>, lo: seq<string>, orgWords: seq<string>,
                            table: seq<(string, real)>)
    requires Contains(u, t) && Contains(p, o) && Contains(sec', sec)
    requires forall k :: 0 <= k < |table| ==> table[k].1 > 0.0
    ensures 25.0 * CountContained(t, hi) as real + 10.0 * CountContained(t, mid) as real
              + 5.0 * CountContained(t, lo) as real + (if ContainsAny(o, orgWords) then 20.0 else 0.0)
              + SumMatched(sec, table)
            <= 25.0 * CountContained(u, hi) as real + 10.0 * CountContained(u, mid) as real
              + 5.0 * CountContained(u, lo) as real + (if ContainsAny(p, orgWords) then 20.0 else 0.0)
              + SumMatched(sec', table)
  {
    KeywordScoreMonotone(t, u, hi, mid, lo);
    OrgSectorMonotone(o, p, sec, sec', orgWords, table);
  }

  /** The organisation and sector part of the relevance sum never drops as they grow. */
  lemma OrgSectorMonotone(o: string, p: string, sec: string, sec': string,
                          orgWords: seq<string>, table: seq<(string, real)>)
    requires Contains(p, o) && Contains(sec', sec)
    requires forall k :: 0 <= k < |table| ==> table[k].1 > 0.0
    ensures (if ContainsAny(o, orgWords) then 20.0 else 0.0) + SumMatched(sec, table)
            <= (if ContainsAny(p, orgWords) then 20.0 else 0.0) + SumMatched(sec', table)
  {
    AnyMonotone(o, p, orgWords);
    SumMatchedMonotone(sec, sec', table);
  }

  /** The keyword part of the relevance sum never drops as the text grows. */
  lemma KeywordScoreMonotone(t: string, u: string, hi: seq<string>, mid: seq<string>, lo: seq<string>)
    requires Contains(u, t)
    ensures 25.0 * CountContained(t, hi) as real + 10.0 * CountContained(t, mid) as real
              + 5.0 * CountContained(t, lo) as real
            <= 25.0 * CountContained(u, hi) as real + 10.0 * CountContained(u, mid) as real
              + 5.0 * CountContained(u, lo) as real
  {
    CountContainedMonotone(t, u, hi);
    CountContainedMonotone(t, u, mid);
    CountContainedMonotone(t, u, lo);
  }

  /** A text containing another contains every pattern it contains. */
  lemma AnyMonotone(a: string, b: string, pats: seq<string>)
    requires Contains(b, a)
    ensures ContainsAny(a, pats) ==> ContainsAny(b, pats)
  {
    if ContainsAny(a, pats) {
      var k :| 0 <= k < |pats| && Contains(a, pats[k]);
      ContainsTransitive(b, a, pats[k]);
    }
  }

  /** More text never lowers the relevance: a combined text, organisation
      and sector that contain those of another contact score at least as high. */
  lemma RelevanceMonotone(c: Contact, d: Contact)
    requires Contains(CombinedText(d), CombinedText(c))
    requires Contains(d.organization, c.organization) && Contains(d.sector, c.sector)
    ensures YouthJusticeRelevance(c) <= YouthJusticeRelevance(d)
  {
    LowerKeepsContains(c.organization, d.organization);
    LowerKeepsContains(c.sector, d.sector);
    RelevanceSumMonotone(CombinedText(c), CombinedText(d), Lower(c.organization), Lower(d.organization),
                         Lower(c.sector), Lower(d.sector));
  }

  /** Relevance is zero exactly when no keyword, organisation word or sector key matches. */
  lemma {:induction false} RelevanceZeroIff(c: Contact)
    ensures YouthJusticeRelevance(c) == 0.0 <==>
      (!ContainsAny(CombinedText(c), HighRelevance)
       && !ContainsAny(CombinedText(c), MediumRelevance)
       && !ContainsAny(CombinedText(c), LowRelevance)
       && !ContainsAny(Lower(c.organization), RelevantOrgWords)
       && forall k :: 0 <= k < |SectorRelevance| ==> !Contains(Lower(c.sector), SectorRelevance[k].0))
  {
    var text := CombinedText(c);
    var h := CountContained(text, HighRelevance);
    var m := CountContained(text, MediumRelevance);
    var l := CountContained(text, LowRelevance);
    assert h == 0 <==> !ContainsAny(text, HighRelevance);
    assert m == 0 <==> !ContainsAny(text, MediumRelevance);
    assert l == 0 <==> !ContainsAny(text, LowRelevance);
  }

  // ---------------------------------------------------------------------------
  // Influence
  // ---------------------------------------------------------------------------

  /** 30 per senior-title indicator and 15 per mid-level indicator found in the title. */
  function TitleInfluence(title: string): (r: real)
    ensures r >= 0.0
    ensures r == 0.0 <==> !ContainsAny(title, HighInfluence) && !ContainsAny(title, MediumInfluence)
  {
    30.0 * CountContained(title, HighInfluence) as real
      + 15.0 * CountContained(title, MediumInfluence) as real
  }

  /** Index of the first sector key found in the sector or the organisation, or |table|. */
  function FirstSectorKey(sector: string, org: string, table: seq<(string, real)>): (k: nat)
    ensures k <= |table|
    ensures k < |table| ==> Contains(sector, table[k].0) || Contains(org, table[k].0)
    ensures forall j :: 0 <= j < k ==> !Contains(sector, table[j].0) && !Contains(org, table[j].0)
  {
    if |table| == 0 then 0
    else if Contains(sector, table[0].0) || Contains(org, table[0].0) then 0
    else 1 + FirstSectorKey(sector, org, table[1..])
  }

  /** The multiplier of the first matching sector key in declaration order
      (the loop `break`s after it), or 1 when none matches. */
  function SectorMultiplier(sector: string, org: string): (m: real)
    ensures m >= 1.0
    ensures m == 1.0 <==> FirstSectorKey(sector, org, SectorMultipliers) == |SectorMultipliers|
  {
    var k := FirstSectorKey(sector, org, SectorMultipliers);
    if k < |SectorMultipliers| then SectorMultipliers[k].1 else 1.0
  }

  /** Organisation bonuses added after the multiplier: media 25, government 20, academic 15. */
  function OrgInfluenceBonus(org: string): (r: real)
    ensures 0.0 <= r <= 60.0
  {
    (if ContainsAny(org, MediaOrgs) then 25.0 else 0.0)
      + (if ContainsAny(org, GovernmentOrgWords) then 20.0 else 0.0)
      + (if ContainsAny(org, AcademicOrgWords) then 15.0 else 0.0)
  }

  /** `calculate_influence_score` */
  function Influence(c: Contact): (r: real)
    ensures 0.0 <= r <= 100.0
  {
    InfluenceOf(Lower(c.title), Lower(c.organization), Lower(c.sector))
  }

  /** The influence of lower-cased title, organisation and sector: the title
      score scaled by the sector multiplier, plus the organisation bonuses, capped. */
  function InfluenceOf(title: string, org: string, sector: string): (r: real)
    ensures 0.0 <= r <= 100.0
    ensures r >= Min(TitleInfluence(title), 100.0)
  {
    var t := TitleInfluence(title);
    var m := SectorMultiplier(sector, org);
    var b := OrgInfluenceBonus(org);
    ScaledCapAtLeast(t, m, b);
    Min(t * m + b, 100.0)
  }

  /** A government sector or organisation triples the title score, whatever
      else matches, because "government" is the first key of the table. */
  lemma GovernmentMultiplierWins(sector: string, org: string)
    requires Contains(sector, "government") || Contains(org, "government")
    ensures SectorMultiplier(sector, org) == 3.0
  {
  }

  lemma ScaledCapAtLeast(t: real, m: real, b: real)
    requires t >= 0.0 && m >= 1.0 && b >= 0.0
    ensures t * m + b >= 0.0
    ensures Min(t * m + b, 100.0) >= Min(t, 100.0)
  {
    assert t * m - t == t * (m - 1.0);
    assert t * (m - 1.0) >= 0.0;
  }

  // ---------------------------------------------------------------------------
  // Accessibility, timing, strategic value, risk
  // ---------------------------------------------------------------------------

  /** The sector adjustment: media +15, else civil society +10, else government -10. */
  function SectorAccessibility(sector: string): (r: real)
    ensures -10.0 <= r <= 15.0
  {
    if Contains(sector, "media") then 15.0
    else if Contains(sector, "civil society") then 10.0
    else if Contains(sector, "government") then -10.0
    else 0.0
  }

  /** `calculate_accessibility_score`: base 50 plus contact-channel bonuses. */
  function Accessibility(c: Contact): (r: real)
    ensures 40.0 <= r <= 100.0
  {
    var info := Lower(c.contactInfo);
    var org := Lower(c.organization);
    var sector := Lower(c.sector);
    Min(50.0
        + (if c.email != "" then 20.0 else 0.0)
        + (if c.linkedinUrl != "" then 15.0 else 0.0)
        + (if c.contactInfo != "" then 10.0 else 0.0)
        + (if Contains(info, "public contact") then 15.0 else 0.0)
        + (if Contains(info, "twitter") || Contains(info, "@") then 10.0 else 0.0)
        + (if ContainsAny(org, AccessibleOrgs) then 10.0 else 0.0)
        + SectorAccessibility(sector),
        100.0)
  }

  /** Only a government sector without any other bonus brings accessibility below 50. */
  lemma AccessibilityBelowBase(c: Contact)
    requires Accessibility(c) < 50.0
    ensures Contains(Lower(c.sector), "government")
    ensures c.email == "" && c.linkedinUrl == "" && c.contactInfo == ""
  {
  }

  /** The campaign bonus: launch/co-founder 30, else keynote/speaker 25, else partner 20. */
  function CampaignTiming(campaign: string): (r: real)
    ensures r in {0.0, 20.0, 25.0, 30.0}
  {
    if Contains(campaign, "launch") || Contains(campaign, "co-founder") then 30.0
    else if Contains(campaign, "keynote") || Contains(campaign, "speaker") then 25.0
    else if Contains(campaign, "partner") then 20.0
    else 0.0
  }

  /** `calculate_timing_score`: base 60 plus campaign, media and 2025-connection bonuses. */
  function Timing(c: Contact): (r: real)
    ensures 60.0 <= r <= 100.0
  {
    var campaign := Lower(c.campaignRelevance);
    var sector := Lower(c.sector);
    Min(60.0 + CampaignTiming(campaign)
        + (if Contains(sector, "media") then 15.0 else 0.0)
        + (if c.connectedDate != "" && Contains(c.connectedDate, "2025") then 10.0 else 0.0),
        100.0)
  }

  /** Number of high-value indicators found in the title or the campaign text. */
  function CountIndicators(title: string, campaign: string, pats: seq<string>): (n: nat)
    ensures n <= |pats|
  {
    if |pats| == 0 then 0
    else
      (if Contains(title, pats[0]) || Contains(campaign, pats[0]) then 1 else 0)
      + CountIndicators(title, campaign, pats[1..])
  }

  /** `calculate_strategic_value` */
  function StrategicValue(c: Contact): (r: real)
    ensures 0.0 <= r <= 100.0
  {
    var campaign := Lower(c.campaignRelevance);
    var title := Lower(c.title);
    Min(20.0 * CountIndicators(title, campaign, HighValueIndicators) as real + CampaignBonus(campaign), 100.0)
  }

  /** The network, lived-experience, international and innovation bonuses. */
  function CampaignBonus(campaign: string): (r: real)
    ensures 0.0 <= r <= 75.0
  {
    (if Contains(campaign, "network") || Contains(campaign, "connects") then 15.0 else 0.0)
    + (if Contains(campaign, "lived experience") then 25.0 else 0.0)
    + (if Contains(campaign, "international") || Contains(campaign, "global") then 20.0 else 0.0)
    + (if Contains(campaign, "digital") || Contains(campaign, "innovation") then 15.0 else 0.0)
  }

  /** `calculate_risk_score`: partisan 20, sensitive topic 10, investigative 15,
      and 10 for a government organisation unless the title names a minister. */
  function Risk(c: Contact): (r: real)
    ensures 0.0 <= r <= 55.0
  {
    var org := Lower(c.organization);
    var campaign := Lower(c.campaignRelevance);
    Min((if Contains(org, "liberal") || Contains(org, "labor") || Contains(org, "greens") then 20.0 else 0.0)
        + (if Contains(campaign, "abuse") || Contains(campaign, "expose") then 10.0 else 0.0)
        + (if Contains(campaign, "investigative") then 15.0 else 0.0)
        + (if Contains(org, "government") && !Contains(Lower(c.title), "minister") then 10.0 else 0.0),
        100.0)
  }

  /** Timing stays at its base of 60 exactly when no campaign, media or 2025 cue occurs. */
  lemma TimingAtBase(c: Contact)
    ensures Timing(c) == 60.0 <==>
              CampaignTiming(Lower(c.campaignRelevance)) == 0.0
              && !Contains(Lower(c.sector), "media") && !Contains(c.connectedDate, "2025")
  {
  }

  /** A campaign text that contains another earns at least its timing bonus:
      the cues are tested from the largest bonus down. */
  lemma CampaignTimingMonotone(a: string, b: string)
    requires Contains(b, a)
    ensures CampaignTiming(a) <= CampaignTiming(b)
  {
    if Contains(a, "launch") { ContainsTransitive(b, a, "launch"); }
    if Contains(a, "co-founder") { ContainsTransitive(b, a, "co-founder"); }
    if Contains(a, "keynote") { ContainsTransitive(b, a, "keynote"); }
    if Contains(a, "speaker") { ContainsTransitive(b, a, "speaker"); }
    if Contains(a, "partner") { ContainsTransitive(b, a, "partner"); }
  }

  /** More campaign, sector or connection text never lowers the timing score. */
  lemma TimingMonotone(c: Contact, d: Contact)
    requires Contains(d.campaignRelevance, c.campaignRelevance)
    requires Contains(d.sector, c.sector) && Contains(d.connectedDate, c.connectedDate)
    ensures Timing(c) <= Timing(d)
  {
    LowerKeepsContains(c.campaignRelevance, d.campaignRelevance);
    LowerKeepsContains(c.sector, d.sector);
    CampaignTimingMonotone(Lower(c.campaignRelevance), Lower(d.campaignRelevance));
    if Contains(Lower(c.sector), "media") { ContainsTransitive(Lower(d.sector), Lower(c.sector), "media"); }
    if Contains(c.connectedDate, "2025") { ContainsTransitive(d.connectedDate, c.connectedDate, "2025"); }
  }

  /** Titles and campaign texts that contain others hold at least their indicators. */
  lemma {:induction false} CountIndicatorsMonotone(t1: string, c1: string, t2: string, c2: string, pats: seq<string>)
    requires Contains(t2, t1) && Contains(c2, c1)
    ensures CountIndicators(t1, c1, pats) <= CountIndicators(t2, c2, pats)
  {
    if |pats| > 0 {
      CountIndicatorsMonotone(t1, c1, t2, c2, pats[1..]);
      if Contains(t1, pats[0]) { ContainsTransitive(t2, t1, pats[0]); }
      if Contains(c1, pats[0]) { ContainsTransitive(c2, c1, pats[0]); }
    }
  }

  /** More title or campaign text never lowers the strategic value. */
  lemma StrategicValueMonotone(c: Contact, d: Contact)
    requires Contains(d.title, c.title) && Contains(d.campaignRelevance, c.campaignRelevance)
    ensures StrategicValue(c) <= StrategicValue(d)
  {
    LowerKeepsContains(c.campaignRelevance, d.campaignRelevance);
    LowerKeepsContains(c.title, d.title);
    StrategicSumMonotone(Lower(c.title), Lower(c.campaignRelevance), Lower(d.title), Lower(d.campaignRelevance),
                         HighValueIndicators);
  }

  /** The uncapped strategic sum, for any indicator table, never drops as title and campaign grow. */
  lemma StrategicSumMonotone(t1: string, a: string, t2: string, b: string, pats: seq<string>)
    requires Contains(t2, t1) && Contains(b, a)
    ensures 20.0 * CountIndicators(t1, a, pats) as real + CampaignBonus(a)
            <= 20.0 * CountIndicators(t2, b, pats) as real + CampaignBonus(b)
  {
    CountIndicatorsMonotone(t1, a, t2, b, pats);
    CampaignBonusMonotone(a, b);
  }

  /** A campaign text containing another earns at least its bonuses. */
  lemma CampaignBonusMonotone(a: string, b: string)
    requires Contains(b, a)
    ensures CampaignBonus(a) <= CampaignBonus(b)
  {
    if Contains(a, "network") { ContainsTransitive(b, a, "network"); }
    if Contains(a, "connects") { ContainsTransitive(b, a, "connects"); }
    if Contains(a, "lived experience") { ContainsTransitive(b, a, "lived experience"); }
    if Contains(a, "international") { ContainsTransitive(b, a, "international"); }
    if Contains(a, "global") { ContainsTransitive(b, a, "global"); }
    if Contains(a, "digital") { ContainsTransitive(b, a, "digital"); }
    if Contains(a, "innovation") { ContainsTransitive(b, a, "innovation"); }
  }

  /** With the title fixed, more organisation or campaign text never lowers the risk. */
  lemma RiskMonotone(c: Contact, d: Contact)
    requires Contains(d.organization, c.organization) && Contains(d.campaignRelevance, c.campaignRelevance)
    requires d.title == c.title
    ensures Risk(c) <= Risk(d)
  {
    var o, p := Lower(c.organization), Lower(d.organization);
    var a, b := Lower(c.campaignRelevance), Lower(d.campaignRelevance);
    LowerKeepsContains(c.organization, d.organization);
    LowerKeepsContains(c.campaignRelevance, d.campaignRelevance);
    if Contains(o, "liberal") { ContainsTransitive(p, o, "liberal"); }
    if Contains(o, "labor") { ContainsTransitive(p, o, "labor"); }
    if Contains(o, "greens") { ContainsTransitive(p, o, "greens"); }
    if Contains(o, "government") { ContainsTransitive(p, o, "government"); }
    if Contains(a, "abuse") { ContainsTransitive(b, a, "abuse"); }
    if Contains(a, "expose") { ContainsTransitive(b, a, "expose"); }
    if Contains(a, "investigative") { ContainsTransitive(b, a, "investigative"); }
  }

  /** A minister's title never raises the risk: it only switches the
      government-organisation term off. */
  lemma MinisterNeverRaisesRisk(c: Contact, title: string)
    requires Contains(Lower(title), "minister")
    ensures Risk(c.(title := title)) <= Risk(c)
    ensures Contains(Lower(c.organization), "government") && !Contains(Lower(c.title), "minister") ==>
              Risk(c.(title := title)) == Risk(c) - 10.0
  {
  }

  // ---------------------------------------------------------------------------
  // Composite
  // ---------------------------------------------------------------------------

  /** The `ContactScore` record. */
  datatype ScoreVector = ScoreVector(
    relevance: real,
    influence: real,
    accessibility: real,
    timing: real,
    strategicValue: real,
    composite: real,
    risk: real)

  const RelevanceWeight: real := 0.30
  const InfluenceWeight: real := 0.25
  const AccessibilityWeight: real := 0.20
  const TimingWeight: real := 0.15
  const StrategicWeight: real := 0.10

  lemma WeightsSumToOne()
    ensures RelevanceWeight + InfluenceWeight + AccessibilityWeight + TimingWeight + StrategicWeight == 1.0
  {
  }

  /** The weighted sum of the five dimensions (risk is not part of it). */
  function Composite(relevance: real, influence: real, accessibility: real, timing: real, strategic: real): real {
    relevance * RelevanceWeight + influence * InfluenceWeight + accessibility * AccessibilityWeight
      + timing * TimingWeight + strategic * StrategicWeight
  }

  /** A weighted average of in-range dimensions stays in range. */
  lemma CompositeInRange(relevance: real, influence: real, accessibility: real, timing: real, strategic: real)
    requires 0.0 <= relevance <= 100.0 && 0.0 <= influence <= 100.0 && 0.0 <= accessibility <= 100.0
    requires 0.0 <= timing <= 100.0 && 0.0 <= strategic <= 100.0
    ensures 0.0 <= Composite(relevance, influence, accessibility, timing, strategic) <= 100.0
  {
  }

  /** Raising any one dimension never lowers the composite. */
  lemma CompositeMonotone(r1: real, i1: real, a1: real, t1: real, s1: real,
                          r2: real, i2: real, a2: real, t2: real, s2: real)
    requires r1 <= r2 && i1 <= i2 && a1 <= a2 && t1 <= t2 && s1 <= s2
    ensures Composite(r1, i1, a1, t1, s1) <= Composite(r2, i2, a2, t2, s2)
  {
  }

  /** The ranges the six scorers can produce. */
  predicate Attainable(s: ScoreVector) {
    0.0 <= s.relevance <= 100.0 && 0.0 <= s.influence <= 100.0
    && 40.0 <= s.accessibility <= 100.0 && 60.0 <= s.timing <= 100.0
    && 0.0 <= s.strategicValue <= 100.0 && 0.0 <= s.risk <= 55.0
  }

  /** The scores of one contact, as the loop of `process_contacts` computes them. */
  function ScoreContact(c: Contact): (s: ScoreVector)
    ensures Attainable(s)
    ensures 17.0 <= s.composite <= 100.0
    ensures s.composite == Composite(s.relevance, s.influence, s.accessibility, s.timing, s.strategicValue)
  {
    var r := YouthJusticeRelevance(c);
    var i := Influence(c);
    var a := Accessibility(c);
    var t := Timing(c);
    var v := StrategicValue(c);
    ScoreVector(r, i, a, t, v, Composite(r, i, a, t, v), Risk(c))
  }

  /** Every keyword of the scorers is longer than the three blanks that the
      combined text of an empty row consists of. */
  lemma NothingInShortText(text: string, pats: seq<string>)
    requires forall k :: 0 <= k < |pats| ==> |pats[k]| > |text|
    ensures !ContainsAny(text, pats)
    ensures CountContained(text, pats) == 0
  {
  }

  /** A contact whose cells are all empty scores relevance 0, influence 0,
      accessibility 50, timing 60, strategic value 0 and risk 0, so its
      composite is 0.20 * 50 + 0.15 * 60 = 19. */
  lemma BlankContactScores(c: Contact)
    requires Blank(c)
    ensures ScoreContact(c) == ScoreVector(0.0, 0.0, 50.0, 60.0, 0.0, 19.0, 0.0)
  {
    BlankRelevance(c);
    BlankInfluence(c);
    BlankAccessibility(c);
    BlankStrategicValue(c);
  }

  /** Every cell of the row is empty. */
  predicate Blank(c: Contact) {
    |c.title| == 0 && |c.organization| == 0 && |c.sector| == 0 && |c.campaignRelevance| == 0
    && |c.email| == 0 && |c.linkedinUrl| == 0 && |c.contactInfo| == 0 && |c.connectedDate| == 0
  }

  lemma BlankRelevance(c: Contact)
    requires Blank(c)
    ensures YouthJusticeRelevance(c) == 0.0
  {
    assert |CombinedText(c)| == 3;
    ShortTextIrrelevant(CombinedText(c), Lower(c.organization), Lower(c.sector));
  }

  lemma BlankInfluence(c: Contact)
    requires Blank(c)
    ensures Influence(c) == 0.0
  {
    EmptyTextNoInfluence(Lower(c.title), Lower(c.organization), Lower(c.sector));
  }

  lemma BlankAccessibility(c: Contact)
    requires Blank(c)
    ensures Accessibility(c) == 50.0
  {
    NothingInShortText(Lower(c.organization), AccessibleOrgs);
  }

  lemma BlankStrategicValue(c: Contact)
    requires Blank(c)
    ensures StrategicValue(c) == 0.0
  {
    ShortHasNoIndicator(Lower(c.title), Lower(c.campaignRelevance), HighValueIndicators);
  }

  /** Text shorter than every relevance keyword scores no relevance. */
  lemma {:induction false} ShortTextIrrelevant(text: string, org: string, sector: string)
    requires |text| <= 3 && |org| <= 3 && |sector| <= 3
    ensures RelevanceSum(text, org, sector) == 0.0
  {
    RelevanceKeywordsLong();
    NothingInShortText(text, HighRelevance);
    NothingInShortText(text, MediumRelevance);
    NothingInShortText(text, LowRelevance);
    NothingInShortText(org, RelevantOrgWords);
    ShortMatchesNothing(sector, SectorRelevance);
  }

  /** Every relevance keyword has more than three characters. */
  lemma RelevanceKeywordsLong()
    ensures forall k :: 0 <= k < |HighRelevance| ==> |HighRelevance[k]| > 3
    ensures forall k :: 0 <= k < |MediumRelevance| ==> |MediumRelevance[k]| > 3
    ensures forall k :: 0 <= k < |LowRelevance| ==> |LowRelevance[k]| > 3
    ensures forall k :: 0 <= k < |RelevantOrgWords| ==> |RelevantOrgWords[k]| > 3
    ensures forall k :: 0 <= k < |SectorRelevance| ==> SectorRelevance[k].1 > 0.0 && |SectorRelevance[k].0| > 3
  {
  }

  /** Empty title, organisation and sector carry no influence. */
  lemma {:induction false} EmptyTextNoInfluence(title: string, org: string, sector: string)
    requires |title| == 0 && |org| == 0 && |sector| == 0
    ensures InfluenceOf(title, org, sector) == 0.0
  {
    NothingInShortText(title, HighInfluence);
    NothingInShortText(title, MediumInfluence);
    NothingInShortText(org, MediaOrgs);
    NothingInShortText(org, GovernmentOrgWords);
    NothingInShortText(org, AcademicOrgWords);
    ShortHasNoSectorKey(sector, org, SectorMultipliers);
  }

  lemma {:induction false} ShortMatchesNothing(text: string, table: seq<(string, real)>)
    requires forall k :: 0 <= k < |table| ==> table[k].1 > 0.0 && |table[k].0| > |text|
    ensures SumMatched(text, table) == 0.0
  {
    if |table| > 0 {
      ShortMatchesNothing(text, table[1..]);
    }
  }

  lemma {:induction false} ShortHasNoSectorKey(sector: string, org: string, table: seq<(string, real)>)
    requires forall k :: 0 <= k < |table| ==> |table[k].0| > |sector| && |table[k].0| > |org|
    ensures FirstSectorKey(sector, org, table) == |table|
  {
    if |table| > 0 {
      ShortHasNoSectorKey(sector, org, table[1..]);
    }
  }

  lemma {:induction false} ShortHasNoIndicator(title: string, campaign: string, pats: seq<string>)
    requires forall k :: 0 <= k < |pats| ==> |pats[k]| > |title| && |pats[k]| > |campaign|
    ensures CountIndicators(title, campaign, pats) == 0
  {
    if |pats| > 0 {
      ShortHasNoIndicator(title, campaign, pats[1..]);
    }
  }
}
