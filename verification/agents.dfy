/** The lifecycle of `BaseAgent` (infrastructure/agents/python/shared/base_agent.py):
    a status machine over `AgentStatus` driven by the subclass hooks, whose
    outcomes are parameters, and the message and error counters kept by
    `process_message`. Clock readings are parameters too. */
module Agents {
  import opened Wrappers

  /** `AgentStatus` */
  datatype Status = Initialising | Ready | Running | Paused | Stopping | Stopped | Error

  /** What an awaited hook (`_setup`, `_run`, `_cleanup`) did. */
  datatype Hook = Succeeded | Raised(error: string)

  datatype Agent = Agent(
    agentId: string,
    agentType: string,
    status: Status,
    messagesProcessed: nat,
    errors: nat,
    createdAt: real,
    lastHeartbeat: real,
    uptimeSeconds: real)

  /** `BaseAgent.__init__` at time `now`. */
  function NewAgent(agentId: string, agentType: string, now: real): (a: Agent)
    ensures a.status == Initialising
    ensures a.messagesProcessed == 0 && a.errors == 0 && a.uptimeSeconds == 0.0
    ensures a.createdAt == now && a.lastHeartbeat == now
  {
    Agent(agentId, agentType, Initialising, 0, 0, now, now, 0.0)
  }

  /** The agent after a lifecycle call and the exception it re-raised, if any. */
  datatype Step = Step(agent: Agent, raised: Option<string>)

  /** `initialize`: READY after a successful setup, else ERROR and the setup's exception. */
  function Initialize(a: Agent, setup: Hook): (r: Step)
    ensures r.agent == a.(status := r.agent.status)
    ensures r.raised.None? <==> setup.Succeeded?
    ensures setup.Succeeded? ==> r.agent.status == Ready
    ensures setup.Raised? ==> r.agent.status == Error && r.raised == Some(setup.error)
  {
    match setup
    case Succeeded => Step(a.(status := Ready), None)
    case Raised(e) => Step(a.(status := Error), Some(e))
  }

  /** `start`: initialise unless READY, then RUNNING for the whole run; a
      failing run leaves ERROR. A run that returns leaves the status RUNNING. */
  function Start(a: Agent, setup: Hook, run: Hook): (r: Step)
    ensures r.agent == a.(status := r.agent.status)
    ensures r.raised.None? <==> (a.status == Ready || setup.Succeeded?) && run.Succeeded?
    ensures r.raised.None? ==> r.agent.status == Running
    ensures r.raised.Some? ==> r.agent.status == Error
    ensures a.status != Ready && setup.Raised? ==> r.raised == Some(setup.error)
  {
    var init := if a.status != Ready then Initialize(a, setup) else Step(a, None);
    if init.raised.Some? then init
    else
      var running := init.agent.(status := Running);
      match run
      case Succeeded => Step(running, None)
      case Raised(e) => Step(running.(status := Error), Some(e))
  }

  /** `stop`: STOPPED after a successful cleanup, else ERROR and the cleanup's exception. */
  function Stop(a: Agent, cleanup: Hook): (r: Step)
    ensures r.agent == a.(status := r.agent.status)
    ensures r.agent.status == Stopped <==> cleanup.Succeeded?
    ensures r.agent.status == Error <==> cleanup.Raised?
    ensures r.raised.None? <==> cleanup.Succeeded?
  {
    match cleanup
    case Succeeded => Step(a.(status := Stopped), None)
    case Raised(e) => Step(a.(status := Error), Some(e))
  }

  /** An `AgentMessage`, reduced to what the base class reads. */
  datatype Message = Message(messageId: string, conversationId: string, content: string)

  /** What `_handle_message` did: returned a dict (whose "content" may be
      missing) or raised. */
  datatype Handled = Reply(content: Option<string>) | HandlerRaised(error: string)

  datatype Response = Response(
    messageId: string, conversationId: string, agentId: string, agentType: string,
    content: string, success: bool)

  const ErrorPrefix: string := "Error processing message: "

  /** `process_message` at time `now`, with `responseId` for the fresh uuid. */
  function ProcessMessage(a: Agent, msg: Message, handler: Handled, now: real, responseId: string): (r: (Agent, Response))
    ensures r.0.messagesProcessed == a.messagesProcessed + 1
    ensures r.0.errors == a.errors + (if handler.HandlerRaised? then 1 else 0)
    ensures r.0 == a.(messagesProcessed := r.0.messagesProcessed, errors := r.0.errors,
                      lastHeartbeat := now, uptimeSeconds := now - a.createdAt)
    ensures r.1.success <==> handler.Reply?
    ensures r.1.conversationId == msg.conversationId && r.1.agentId == a.agentId && r.1.agentType == a.agentType
    ensures handler.HandlerRaised? ==> r.1.content == ErrorPrefix + handler.error
    ensures handler == Reply(None) ==> r.1.content == ""
  {
    var counted := a.(messagesProcessed := a.messagesProcessed + 1,
                      lastHeartbeat := now, uptimeSeconds := now - a.createdAt);
    match handler
    case Reply(content) =>
      var text := match content case Some(t) => t case None => "";
      (counted, Response(responseId, msg.conversationId, a.agentId, a.agentType, text, true))
    case HandlerRaised(e) =>
      (counted.(errors := a.errors + 1),
       Response(responseId, msg.conversationId, a.agentId, a.agentType, ErrorPrefix + e, false))
  }

  /** `health_check` before the subclass's own entries are merged in. */
  datatype Health = Health(status: Status, uptimeSeconds: real, messagesProcessed: nat, errors: nat, healthy: bool)

  function HealthCheck(a: Agent, now: real): (h: Health)
    ensures h.healthy <==> a.status == Ready || a.status == Running
    ensures h.status == a.status && h.uptimeSeconds == now - a.createdAt
    ensures h.messagesProcessed == a.messagesProcessed && h.errors == a.errors
  {
    Health(a.status, now - a.createdAt, a.messagesProcessed, a.errors, a.status in {Ready, Running})
  }

  // ---------------------------------------------------------------------------
  // Properties
  // ---------------------------------------------------------------------------

  /** The agent's counters agree: errors never outnumber messages. */
  predicate CountersAgree(a: Agent) {
    a.errors <= a.messagesProcessed
  }

  /** Every operation keeps the counters in agreement. */
  lemma CountersAgreePreserved(a: Agent, setup: Hook, run: Hook, cleanup: Hook,
                                msg: Message, handler: Handled, now: real, id: string)
    requires CountersAgree(a)
    ensures CountersAgree(Initialize(a, setup).agent)
    ensures CountersAgree(Start(a, setup, run).agent)
    ensures CountersAgree(Stop(a, cleanup).agent)
    ensures CountersAgree(ProcessMessage(a, msg, handler, now, id).0)
  {
  }

  /** The agent after handling `handlers` in turn, all at time `now`. */
  function ProcessAll(a: Agent, msg: Message, handlers: seq<Handled>, now: real): (r: Agent)
    ensures r.status == a.status
    ensures CountersAgree(a) ==> CountersAgree(r)
    decreases |handlers|
  {
    if |handlers| == 0 then a
    else ProcessAll(ProcessMessage(a, msg, handlers[0], now, "").0, msg, handlers[1..], now)
  }

  /** The number of raising handlers in `handlers`. */
  function Failures(handlers: seq<Handled>): (n: nat)
    ensures n <= |handlers|
  {
    if |handlers| == 0 then 0
    else (if handlers[0].HandlerRaised? then 1 else 0) + Failures(handlers[1..])
  }

  /** Over a session, `messages_processed` counts every message and `errors`
      counts exactly the handlers that raised; the status never moves. */
  lemma {:induction false} SessionCounters(a: Agent, msg: Message, handlers: seq<Handled>, now: real)
    ensures ProcessAll(a, msg, handlers, now).messagesProcessed == a.messagesProcessed + |handlers|
    ensures ProcessAll(a, msg, handlers, now).errors == a.errors + Failures(handlers)
    ensures ProcessAll(a, msg, handlers, now).status == a.status
    decreases |handlers|
  {
    if |handlers| > 0 {
      SessionCounters(ProcessMessage(a, msg, handlers[0], now, "").0, msg, handlers[1..], now);
    }
  }

  /** Once READY, starting never consults the setup hook. */
  lemma StartFromReadySkipsSetup(a: Agent, s1: Hook, s2: Hook, run: Hook)
    requires a.status == Ready
    ensures Start(a, s1, run) == Start(a, s2, run)
  {
  }

  /** A fresh agent is not healthy until initialised; a successful start makes it healthy. */
  lemma HealthFollowsLifecycle(id: string, kind: string, now: real, setup: Hook, run: Hook)
    ensures !HealthCheck(NewAgent(id, kind, now), now).healthy
    ensures setup.Succeeded? ==> HealthCheck(Initialize(NewAgent(id, kind, now), setup).agent, now).healthy
    ensures Start(NewAgent(id, kind, now), setup, run).raised.None? ==>
              HealthCheck(Start(NewAgent(id, kind, now), setup, run).agent, now).healthy
    ensures !HealthCheck(Stop(NewAgent(id, kind, now), setup).agent, now).healthy
  {
  }

  /** Messages are processed whatever the status, even by a stopped agent. */
  lemma StoppedAgentStillAnswers(a: Agent, msg: Message, content: string, now: real, id: string)
    requires a.status == Stopped
    ensures ProcessMessage(a, msg, Reply(Some(content)), now, id).1.success
    ensures ProcessMessage(a, msg, Reply(Some(content)), now, id).1.content == content
  {
  }
}
