/** The scoring and bookkeeping of `AIAnalyzer` and
    `ContactResearchOrchestrator.research_single_contact` in
    scripts/research-contact-enrichment.py. The research steps themselves
    (LinkedIn, news, scraping, language models) are oracles: the model only
    receives what each step produced. */
module Enrichment {
  import opened Strings
  import opened Wrappers

  /** The parts of `ContactEnrichment` the two scores read. Lists enter
      through their lengths; a missing position is "". */
  datatype Enrichment = Enrichment(
    organisation: string,
    currentPosition: string,
    newsMentions: nat,
    academicPublications: nat,
    speakingEngagements: nat,
    sentiment: Option<real>,
    mutualConnections: nat,
    recentActivities: nat)

  function Min(a: real, b: real): real { if a <= b then a else b }

  const SeniorWords: seq<string> := ["ceo", "director", "minister", "commissioner"]
  const MiddleWords: seq<string> := ["manager", "coordinator", "lead"]
  const SectorWords: seq<string> := ["youth", "justice", "community", "legal", "advocacy"]

  /** The position part of the influence score: 0.4 for a senior word, else 0.2 for a middle one. */
  function PositionBonus(position: string): (r: real)
    ensures r in {0.0, 0.2, 0.4}
    ensures r == 0.4 <==> ContainsAny(Lower(position), SeniorWords)
    ensures r == 0.0 <==> !ContainsAny(Lower(position), SeniorWords) && !ContainsAny(Lower(position), MiddleWords)
  {
    if position == "" then 0.0
    else if ContainsAny(Lower(position), SeniorWords) then 0.4
    else if ContainsAny(Lower(position), MiddleWords) then 0.2
    else 0.0
  }

  /** `min(n * step, cap)` for a non-empty list, 0 for an empty one. */
  function CountBonus(n: nat, step: real, cap: real): (r: real)
    ensures n == 0 ==> r == 0.0
    ensures r <= cap || n == 0
    ensures 0 < n && step > 0.0 && cap > 0.0 ==> 0.0 < r
    ensures 0 < n && r < cap ==> r == n as real * step
  {
    if n == 0 then 0.0 else Min(n as real * step, cap)
  }

  /** `calculate_influence_score` */
  function InfluenceScore(e: Enrichment): (r: real)
    ensures 0.0 <= r <= 1.0
  {
    Min(PositionBonus(e.currentPosition)
        + CountBonus(e.newsMentions, 0.1, 0.3)
        + CountBonus(e.academicPublications, 0.05, 0.2)
        + CountBonus(e.speakingEngagements, 0.05, 0.1), 1.0)
  }

  /** `calculate_collaboration_potential` */
  function CollaborationPotential(e: Enrichment): (r: real)
    ensures 0.0 <= r <= 1.0
  {
    var s := if e.sentiment.Some? && e.sentiment.value > 0.0 then e.sentiment.value * 0.4 else 0.0;
    var org := if ContainsAny(Lower(e.organisation), SectorWords) then 0.1 else 0.0;
    Min(s + CountBonus(e.mutualConnections, 0.1, 0.3) + CountBonus(e.recentActivities, 0.05, 0.2) + org, 1.0)
  }

  lemma CountBonusRange(n: nat, step: real, cap: real)
    requires step > 0.0 && cap >= 0.0
    ensures 0.0 <= CountBonus(n, step, cap) <= cap
  {
  }

  lemma CountBonusMonotone(n: nat, m: nat, step: real, cap: real)
    requires n <= m && step > 0.0 && cap >= 0.0
    ensures CountBonus(n, step, cap) <= CountBonus(m, step, cap)
  {
    if 0 < n {
      assert n as real * step <= m as real * step;
    }
  }

  /** The caps of the four influence parts add up to exactly 1, so the final
      `min(score, 1.0)` never cuts anything off. */
  lemma InfluenceNeverCapped(e: Enrichment)
    ensures InfluenceScore(e) == PositionBonus(e.currentPosition)
        + CountBonus(e.newsMentions, 0.1, 0.3)
        + CountBonus(e.academicPublications, 0.05, 0.2)
        + CountBonus(e.speakingEngagements, 0.05, 0.1)
  {
    CountBonusRange(e.newsMentions, 0.1, 0.3);
    CountBonusRange(e.academicPublications, 0.05, 0.2);
    CountBonusRange(e.speakingEngagements, 0.05, 0.1);
  }

  /** More news mentions, publications or talks never lower the influence score. */
  lemma InfluenceMonotone(e: Enrichment, f: Enrichment)
    requires e.currentPosition == f.currentPosition
    requires e.newsMentions <= f.newsMentions
    requires e.academicPublications <= f.academicPublications
    requires e.speakingEngagements <= f.speakingEngagements
    ensures InfluenceScore(e) <= InfluenceScore(f)
  {
    CountBonusMonotone(e.newsMentions, f.newsMentions, 0.1, 0.3);
    CountBonusMonotone(e.academicPublications, f.academicPublications, 0.05, 0.2);
    CountBonusMonotone(e.speakingEngagements, f.speakingEngagements, 0.05, 0.1);
  }

  /** The influence score reaches its maximum of 1 exactly for a senior
      position with at least three news mentions, four publications and two
      talks: the four parts are each at their cap. */
  lemma InfluenceMaximum(e: Enrichment)
    ensures InfluenceScore(e) == 1.0 <==>
              ContainsAny(Lower(e.currentPosition), SeniorWords)
              && e.newsMentions >= 3 && e.academicPublications >= 4 && e.speakingEngagements >= 2
  {
    InfluenceNeverCapped(e);
    CountBonusAtCap(e.newsMentions, 0.1, 0.3);
    CountBonusAtCap(e.academicPublications, 0.05, 0.2);
    CountBonusAtCap(e.speakingEngagements, 0.05, 0.1);
  }

  /** A bonus reaches its cap exactly when the count times the step does. */
  lemma CountBonusAtCap(n: nat, step: real, cap: real)
    requires step > 0.0 && cap > 0.0
    ensures 0.0 <= CountBonus(n, step, cap) <= cap
    ensures CountBonus(n, step, cap) == cap <==> n as real * step >= cap
  {
  }

  /** Without positive sentiment the collaboration potential stays at most 0.6. */
  lemma CollaborationWithoutSentiment(e: Enrichment)
    requires e.sentiment.None? || e.sentiment.value <= 0.0
    ensures CollaborationPotential(e) <= 0.6
  {
    CountBonusRange(e.mutualConnections, 0.1, 0.3);
    CountBonusRange(e.recentActivities, 0.05, 0.2);
  }

  // ---------------------------------------------------------------------------
  // Data sources and research confidence
  // ---------------------------------------------------------------------------

  /** The `enable_*` switches of `Config` and whether a Hunter.io key is set. */
  datatype Config = Config(
    emailFinding: bool,
    hunterKey: bool,
    linkedinResearch: bool,
    newsResearch: bool,
    webScraping: bool,
    aiAnalysis: bool)

  /** The research steps of `research_single_contact`, in the order they run. */
  datatype Step = EmailStep | LinkedInStep | NewsStep | ScrapingStep | AiStep

  function StepIndex(s: Step): nat {
    match s
    case EmailStep => 0
    case LinkedInStep => 1
    case NewsStep => 2
    case ScrapingStep => 3
    case AiStep => 4
  }

  /** What the oracles answered: whether LinkedIn found a profile, how many
      news mentions came back, whether each of the first two scraped URLs
      returned data, and the step that raised, if any. */
  datatype Observations = Observations(
    linkedinFound: bool,
    newsMentions: nat,
    scrapeHits: seq<bool>,
    raisedAt: Option<Step>)

  /** The step runs: it comes before the step that raised, if any. */
  predicate Reached(obs: Observations, s: Step) {
    obs.raisedAt.None? || StepIndex(s) < StepIndex(obs.raisedAt.value)
  }

  /** Whether one of the first two candidate URLs returned data (the loop breaks at the first). */
  predicate AnyScrapeHit(hits: seq<bool>) {
    exists i :: 0 <= i < |hits| && i < 2 && hits[i]
  }

  /** The six entries `data_sources` can receive. */
  datatype Source = EmailPatterns | HunterIo | LinkedIn | NewsSearch | WebScraping | AiAnalysis

  function SourceLabel(s: Source): string {
    match s
    case EmailPatterns => "email_patterns"
    case HunterIo => "hunter_io"
    case LinkedIn => "linkedin"
    case NewsSearch => "news_search"
    case WebScraping => "web_scraping"
    case AiAnalysis => "ai_analysis"
  }

  /** Whether a source is appended: its switch is on, its step ran to the end
      (a step that raises appends nothing, since each appends as its last
      action) and, for LinkedIn, news and scraping, the step found something. */
  predicate Contributes(c: Config, organisation: string, obs: Observations, src: Source) {
    match src
    case EmailPatterns => c.emailFinding && Reached(obs, EmailStep)
    case HunterIo => c.emailFinding && c.hunterKey && Reached(obs, EmailStep)
    case LinkedIn => c.linkedinResearch && obs.linkedinFound && Reached(obs, LinkedInStep)
    case NewsSearch => c.newsResearch && obs.newsMentions > 0 && Reached(obs, NewsStep)
    case WebScraping => c.webScraping && Strip(organisation) != "" && AnyScrapeHit(obs.scrapeHits) && Reached(obs, ScrapingStep)
    case AiAnalysis => c.aiAnalysis && Reached(obs, AiStep)
  }

  const SourceOrder: seq<Source> := [EmailPatterns, HunterIo, LinkedIn, NewsSearch, WebScraping, AiAnalysis]

  /** The sources of `order` that contribute, in order. */
  function Contributing(c: Config, organisation: string, obs: Observations, order: seq<Source>): (r: seq<Source>)
    ensures |r| <= |order|
    ensures forall x :: x in r <==> x in order && Contributes(c, organisation, obs, x)
    ensures Distinct(order) ==> Distinct(r)
  {
    if |order| == 0 then []
    else
      var rest := Contributing(c, organisation, obs, order[1..]);
      if Contributes(c, organisation, obs, order[0]) then [order[0]] + rest else rest
  }

  lemma SourceOrderComplete()
    ensures Distinct(SourceOrder)
    ensures forall x: Source :: x in SourceOrder
  {
    forall x: Source
      ensures x in SourceOrder
    {
      match x
      case EmailPatterns => assert SourceOrder[0] == x;
      case HunterIo => assert SourceOrder[1] == x;
      case LinkedIn => assert SourceOrder[2] == x;
      case NewsSearch => assert SourceOrder[3] == x;
      case WebScraping => assert SourceOrder[4] == x;
      case AiAnalysis => assert SourceOrder[5] == x;
    }
  }

  /** `enrichment.data_sources` at the end of the call, in the order appended. */
  function DataSources(c: Config, organisation: string, obs: Observations): (r: seq<Source>)
    ensures |r| <= 6
    ensures Distinct(r)
    ensures forall x :: x in r <==> Contributes(c, organisation, obs, x)
  {
    SourceOrderComplete();
    Contributing(c, organisation, obs, SourceOrder)
  }

  /** `research_confidence`: the share of the six sources that contributed,
      or the default 0.0 when a step raised before it was computed. */
  function ResearchConfidence(c: Config, organisation: string, obs: Observations): (r: real)
    ensures 0.0 <= r <= 1.0
    ensures obs.raisedAt.Some? ==> r == 0.0
    ensures obs.raisedAt.None? ==> r * 6.0 == |DataSources(c, organisation, obs)| as real
  {
    if obs.raisedAt.Some? then 0.0
    else |DataSources(c, organisation, obs)| as real / 6.0
  }

  /** Every source of `order` is kept exactly when all of them contribute. */
  lemma {:induction false} AllContributing(c: Config, organisation: string, obs: Observations, order: seq<Source>)
    ensures |Contributing(c, organisation, obs, order)| == |order| <==>
              forall i :: 0 <= i < |order| ==> Contributes(c, organisation, obs, order[i])
  {
    if |order| > 0 {
      AllContributing(c, organisation, obs, order[1..]);
      assert forall i :: 1 <= i < |order| ==> order[i] == order[1..][i - 1];
    }
  }

  /** Full confidence needs every switch on, a Hunter.io key, an organisation
      and every step producing something without raising. */
  lemma FullConfidence(c: Config, organisation: string, obs: Observations)
    ensures ResearchConfidence(c, organisation, obs) == 1.0 <==>
      c == Config(true, true, true, true, true, true) && obs.raisedAt.None? && obs.linkedinFound
      && obs.newsMentions > 0 && Strip(organisation) != "" && AnyScrapeHit(obs.scrapeHits)
  {
    AllContributing(c, organisation, obs, SourceOrder);
    if obs.raisedAt.None? {
      EverySourceContributes(c, organisation, obs);
    }
  }

  /** Without a raise, all six sources contribute exactly when every switch
      is on and every step found something. */
  lemma EverySourceContributes(c: Config, organisation: string, obs: Observations)
    requires obs.raisedAt.None?
    ensures (forall i :: 0 <= i < |SourceOrder| ==> Contributes(c, organisation, obs, SourceOrder[i])) <==>
      c == Config(true, true, true, true, true, true) && obs.linkedinFound
      && obs.newsMentions > 0 && Strip(organisation) != "" && AnyScrapeHit(obs.scrapeHits)
  {
    assert SourceOrder[0] == EmailPatterns && SourceOrder[1] == HunterIo && SourceOrder[2] == LinkedIn;
    assert SourceOrder[3] == NewsSearch && SourceOrder[4] == WebScraping && SourceOrder[5] == AiAnalysis;
  }

  /** E-mail finding counts as a source whatever it found, so it alone gives
      a confidence of at least 1/6. */
  lemma EmailFindingAlwaysCounts(c: Config, organisation: string, obs: Observations)
    requires c.emailFinding && obs.raisedAt.None?
    ensures EmailPatterns in DataSources(c, organisation, obs)
    ensures ResearchConfidence(c, organisation, obs) >= 1.0 / 6.0
  {
  }

  /** An exception in any step leaves the confidence at 0.0, whatever the
      earlier steps contributed. */
  lemma RaiseZeroesConfidence(c: Config, organisation: string, obs: Observations)
    requires obs.raisedAt == Some(AiStep) && c.emailFinding
    ensures ResearchConfidence(c, organisation, obs) == 0.0
    ensures EmailPatterns in DataSources(c, organisation, obs)
  {
  }

  // ---------------------------------------------------------------------------
  // Recording the e-mail step
  // ---------------------------------------------------------------------------

  /** `email_confidence_scores` after the loop: each address maps to the
      confidence of its last occurrence. */
  function ConfidenceScores(found: seq<(string, real)>): (m: map<string, real>)
    ensures forall a :: a in m <==> exists i :: 0 <= i < |found| && found[i].0 == a
  {
    if |found| == 0 then map[]
    else
      var init := found[..|found| - 1];
      var last := found[|found| - 1];
      var m := ConfidenceScores(init);
      assert forall i :: 0 <= i < |init| ==> init[i] == found[i];
      m[last.0 := last.1]
  }

  /** The confidence recorded for an address is that of its last occurrence. */
  lemma {:induction false} ConfidenceOfLastOccurrence(found: seq<(string, real)>, a: string)
    requires a in ConfidenceScores(found)
    ensures exists i :: 0 <= i < |found| && found[i] == (a, ConfidenceScores(found)[a])
                        && forall j :: i < j < |found| ==> found[j].0 != a
  {
    var init := found[..|found| - 1];
    var last := found[|found| - 1];
    if last.0 != a {
      ConfidenceOfLastOccurrence(init, a);
      var i :| 0 <= i < |init| && init[i] == (a, ConfidenceScores(init)[a])
               && forall j :: i < j < |init| ==> init[j].0 != a;
      assert ConfidenceScores(found)[a] == ConfidenceScores(init)[a];
      assert found[i] == (a, ConfidenceScores(found)[a]);
      assert forall j :: i < j < |found| - 1 ==> found[j] == init[j];
      assert forall j :: i < j < |found| ==> found[j].0 != a;
    } else {
      assert found[|found| - 1] == (a, ConfidenceScores(found)[a]);
    }
  }

  /** `found_emails` (every address, repeats included) and `verified_emails`
      (those passing the MX check), in the order found. */
  function FoundEmails(found: seq<(string, real)>): (r: seq<string>)
    ensures |r| == |found|
    ensures forall i :: 0 <= i < |r| ==> r[i] == found[i].0
  {
    seq(|found|, i requires 0 <= i < |found| => found[i].0)
  }

  function VerifiedEmails(found: seq<(string, real)>, mx: string -> bool): (r: seq<string>)
    ensures |r| <= |found|
    ensures forall a :: a in r <==> (exists i :: 0 <= i < |found| && found[i].0 == a) && mx(a)
  {
    if |found| == 0 then []
    else
      var rest := VerifiedEmails(found[1..], mx);
      assert forall i :: 1 <= i < |found| ==> found[i] == found[1..][i - 1];
      if mx(found[0].0) then [found[0].0] + rest else rest
  }

  /** The confidence map covers exactly the found addresses, and every
      verified address was found. */
  lemma RecordedEmailsAgree(found: seq<(string, real)>, mx: string -> bool)
    ensures forall a :: a in ConfidenceScores(found) <==> a in FoundEmails(found)
    ensures forall a :: a in VerifiedEmails(found, mx) ==> a in ConfidenceScores(found)
  {
    var f := FoundEmails(found);
    forall a | a in ConfidenceScores(found)
      ensures a in f
    {
      var i :| 0 <= i < |found| && found[i].0 == a;
      assert f[i] == a;
    }
  }
}
