/** `StrategicAdvisorAgent` (infrastructure/agents/python/agents/strategic_advisor.py):
    which provider clients exist after setup, how a message is routed to a
    handler, which provider answers it, and the agent's own health entries.
    The provider calls are parameters: what the API returned, or a failure. */
module StrategicAdvisor {
  import opened Strings
  import opened Wrappers
  import opened Agents

  /** The agent and whether each provider client has been created. */
  datatype Advisor = Advisor(agent: Agent, openaiClient: bool, anthropicClient: bool)

  const Capabilities: seq<string> := [
    "strategic_planning", "trend_analysis", "risk_assessment", "community_growth",
    "platform_optimisation", "market_research", "decision_support"]

  const NoKeysError: string := "No AI provider API keys configured"

  /** `StrategicAdvisorAgent()`: no clients yet. */
  function NewAdvisor(agentId: string, now: real): (adv: Advisor)
    ensures adv.agent == NewAgent(agentId, "strategic_advisor", now)
    ensures !adv.openaiClient && !adv.anthropicClient
  {
    Advisor(NewAgent(agentId, "strategic_advisor", now), false, false)
  }

  /** `_setup`: a client for every configured key (clients from an earlier
      setup stay), raising when no client exists afterwards. */
  function Setup(adv: Advisor, openaiKey: bool, anthropicKey: bool): (r: (Advisor, Hook))
    ensures r.0.agent == adv.agent
    ensures r.0.openaiClient == (adv.openaiClient || openaiKey)
    ensures r.0.anthropicClient == (adv.anthropicClient || anthropicKey)
    ensures r.1.Raised? <==> !r.0.openaiClient && !r.0.anthropicClient
    ensures r.1.Raised? ==> r.1.error == NoKeysError
  {
    var next := adv.(openaiClient := adv.openaiClient || openaiKey,
                     anthropicClient := adv.anthropicClient || anthropicKey);
    (next, if !next.openaiClient && !next.anthropicClient then Raised(NoKeysError) else Succeeded)
  }

  /** `initialize` of the advisor: its setup decides READY or ERROR. */
  function InitializeAdvisor(adv: Advisor, openaiKey: bool, anthropicKey: bool): (r: (Advisor, Step))
    ensures r.0.agent == r.1.agent
    ensures r.1.agent.status == Ready <==> r.0.openaiClient || r.0.anthropicClient
  {
    var (next, hook) := Setup(adv, openaiKey, anthropicKey);
    var step := Initialize(next.agent, hook);
    (next.(agent := step.agent), step)
  }

  /** For a fresh advisor, setup raises exactly when neither key is configured. */
  lemma FreshSetupNeedsAKey(agentId: string, now: real, openaiKey: bool, anthropicKey: bool)
    ensures Setup(NewAdvisor(agentId, now), openaiKey, anthropicKey).1.Raised? <==> !openaiKey && !anthropicKey
    ensures InitializeAdvisor(NewAdvisor(agentId, now), openaiKey, anthropicKey).1.agent.status == Ready
            <==> openaiKey || anthropicKey
  {
  }

  // ---------------------------------------------------------------------------
  // Routing
  // ---------------------------------------------------------------------------

  datatype Topic = StrategicQuery | TrendAnalysis | RiskAssessment | CommunityGrowth
                 | PlatformOptimisation | GeneralQuery

  /** The keyword pairs `_handle_message` tests, in order, and their handlers. */
  const RouteKeywords: KeywordGroups := [
    ["strategy", "strategic"], ["trend", "analysis"], ["risk", "assessment"],
    ["growth", "community"], ["platform", "optimisation"]]

  const RoutedTopics: seq<Topic> := [StrategicQuery, TrendAnalysis, RiskAssessment, CommunityGrowth, PlatformOptimisation]

  /** `_handle_message`'s dispatch on the lower-cased content. */
  function Route(content: string): (t: Topic)
    ensures t == GeneralQuery <==> !exists k :: 0 <= k < |RouteKeywords| && ContainsAny(Lower(content), RouteKeywords[k])
    ensures t != GeneralQuery ==> exists k ::
      (0 <= k < |RouteKeywords| && t == RoutedTopics[k] && ContainsAny(Lower(content), RouteKeywords[k])
       && forall j :: 0 <= j < k ==> !ContainsAny(Lower(content), RouteKeywords[j]))
  {
    var k := FirstGroup(Lower(content), RouteKeywords);
    if k < |RouteKeywords| then RoutedTopics[k] else GeneralQuery
  }

  /** A message that mentions strategy goes to the strategic handler, whatever else it says. */
  lemma StrategyWins(content: string)
    requires Contains(Lower(content), "strategy") || Contains(Lower(content), "strategic")
    ensures Route(content) == StrategicQuery
  {
    var group := RouteKeywords[0];
    assert group[0] == "strategy" && group[1] == "strategic";
    assert ContainsAny(Lower(content), group);
  }

  /** The metadata "type" each handler reports. */
  function TopicType(t: Topic): string {
    match t
    case StrategicQuery => "strategic_guidance"
    case TrendAnalysis => "trend_analysis"
    case RiskAssessment => "risk_assessment"
    case CommunityGrowth => "community_growth"
    case PlatformOptimisation => "platform_optimisation"
    case GeneralQuery => "general_strategic_guidance"
  }

  /** The reply each handler gives when no client exists. */
  function Unavailable(t: Topic): string {
    match t
    case StrategicQuery => "Strategic analysis capability temporarily unavailable."
    case TrendAnalysis => "Trend analysis capability temporarily unavailable."
    case RiskAssessment => "Risk assessment capability temporarily unavailable."
    case CommunityGrowth => "Community growth analysis capability temporarily unavailable."
    case PlatformOptimisation => "Platform optimisation analysis capability temporarily unavailable."
    case GeneralQuery =>
      "I understand you're looking for strategic guidance. While I'm temporarily unable to provide detailed analysis, "
      + "I recommend focusing on community value, authentic engagement, and sustainable growth practices that align "
      + "with ACT Placemat's community-owned mission."
  }

  // ---------------------------------------------------------------------------
  // Provider calls
  // ---------------------------------------------------------------------------

  /** What a provider call did: the text of its first choice, or an exception. */
  datatype Call = Answered(text: string) | Failed

  const Apology: string :=
    "I apologise, but I'm having technical difficulties with my analysis capabilities. Please try again shortly."

  /** `_call_anthropic` / `_call_openai`: never raise; a failure becomes the apology. */
  function CallText(c: Call): (r: string)
    ensures c.Failed? ==> r == Apology
    ensures c.Answered? ==> r == c.text
  {
    match c
    case Answered(t) => t
    case Failed => Apology
  }

  datatype Provider = Anthropic | OpenAi | NoProvider

  /** Anthropic first, then OpenAI. */
  function ProviderOf(adv: Advisor): (p: Provider)
    ensures p == NoProvider <==> !adv.anthropicClient && !adv.openaiClient
    ensures p == OpenAi ==> !adv.anthropicClient
  {
    if adv.anthropicClient then Anthropic else if adv.openaiClient then OpenAi else NoProvider
  }

  /** A handler's reply: its topic's type and content. `anthropic` and
      `openai` are what each call would return. */
  function HandleMessage(adv: Advisor, content: string, anthropic: Call, openai: Call): (r: (string, string))
    ensures r.0 == TopicType(Route(content))
    ensures ProviderOf(adv) == Anthropic ==> r.1 == CallText(anthropic)
    ensures ProviderOf(adv) == OpenAi ==> r.1 == CallText(openai)
    ensures ProviderOf(adv) == NoProvider ==> r.1 == Unavailable(Route(content))
  {
    var t := Route(content);
    var text := match ProviderOf(adv)
      case Anthropic => CallText(anthropic)
      case OpenAi => CallText(openai)
      case NoProvider => Unavailable(t);
    (TopicType(t), text)
  }

  /** The handler never raises, so every message the advisor processes
      succeeds and counts no error. */
  lemma AdvisorMessagesSucceed(adv: Advisor, msg: Message, anthropic: Call, openai: Call, now: real, id: string)
    ensures var reply := HandleMessage(adv, msg.content, anthropic, openai).1;
      var r := ProcessMessage(adv.agent, msg, Reply(Some(reply)), now, id);
      r.1.success && r.0.errors == adv.agent.errors && r.1.content == reply
  {
  }

  /** After a successful initialisation a provider always exists, so the
      "unavailable" replies are reachable only from an advisor whose setup failed. */
  lemma InitializedAdvisorHasProvider(adv: Advisor, openaiKey: bool, anthropicKey: bool)
    requires InitializeAdvisor(adv, openaiKey, anthropicKey).1.agent.status == Ready
    ensures ProviderOf(InitializeAdvisor(adv, openaiKey, anthropicKey).0) != NoProvider
  {
  }

  // ---------------------------------------------------------------------------
  // Health
  // ---------------------------------------------------------------------------

  /** `_custom_health_check`: the availability flags appear only for existing clients. */
  datatype AdvisorHealth = AdvisorHealth(
    anthropicAvailable: bool, openaiAvailable: bool, capabilities: seq<string>, readyForAnalysis: bool)

  function CustomHealth(adv: Advisor): (h: AdvisorHealth)
    ensures h.readyForAnalysis <==> adv.anthropicClient || adv.openaiClient
    ensures h.capabilities == Capabilities && |h.capabilities| == 7 && Distinct(h.capabilities)
  {
    AdvisorHealth(adv.anthropicClient, adv.openaiClient, Capabilities,
                  adv.anthropicClient || adv.openaiClient)
  }

  /** An advisor that initialised successfully is ready for strategic analysis. */
  lemma ReadyAdvisorIsReadyForAnalysis(adv: Advisor, openaiKey: bool, anthropicKey: bool)
    requires InitializeAdvisor(adv, openaiKey, anthropicKey).1.agent.status == Ready
    ensures CustomHealth(InitializeAdvisor(adv, openaiKey, anthropicKey).0).readyForAnalysis
    ensures HealthCheck(InitializeAdvisor(adv, openaiKey, anthropicKey).0.agent, 0.0).healthy
  {
  }
}
