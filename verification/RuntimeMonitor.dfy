/** `RuntimeMonitor` of `src/runtime/monitor.rs`, updating its bounded deques in place. */
module RuntimeMonitor {
  import opened Model
  import opened Recency
  import opened RuntimeSpec

  /** Dropping from the back until at most `capacity` elements are left. */
  method Trim<T>(full: seq<T>, capacity: nat) returns (kept: seq<T>)
    ensures kept == Take(full, capacity)
  {
    kept := full;
    while |kept| > capacity
      invariant |kept| <= |full| && kept == full[..|kept|]
      invariant |kept| >= capacity || kept == full
    {
      kept := kept[..|kept| - 1];
    }
    TakeIsPrefix(full, capacity);
  }

  function PendingOf(commands: seq<Command>, agentId: string): (r: seq<Command>)
    ensures forall c :: c in r <==> c in commands && c.agentId == agentId && c.status.Pending?
    ensures |r| <= |commands|
  {
    if commands == [] then []
    else
      var n := |commands| - 1;
      assert commands == commands[..n] + [commands[n]];
      PendingOf(commands[..n], agentId)
      + if commands[n].agentId == agentId && commands[n].status.Pending? then [commands[n]] else []
  }

  class RuntimeMonitor {
    const config: Config
    var hooks: seq<Hook>
    var hookIds: seq<Uuid>
    var hookAgents: map<string, HookAgent>
    var commands: seq<Command>

    ghost function View(): State
      reads this
    {
      State(hooks, hookIds, hookAgents, commands)
    }

    constructor (config: Config)
      ensures View() == EMPTY && this.config == config
    {
      this.config := config;
      hooks, hookIds, hookAgents, commands := [], [], map[], [];
    }

    method IngestHook(hook: Hook, valid: bool) returns (reply: Reply)
      modifies this`hooks, this`hookIds, this`hookAgents
      ensures var call := Call.IngestHook(hook, valid);
              reply == ReplyTo(old(View()), call) && View() == Step(config, old(View()), call)
    {
      if !valid { return Refused(Invalid); }
      if hook.eventId in hookIds { return Refused(DuplicateHook); }
      var id := hook.agent.agentId;
      var agent := if id in hookAgents then hookAgents[id] else NewAgent(hook);
      var updatesCurrentState := hook.occurredAt >= agent.lastHookAt;
      agent := agent.(inputTokens := SaturatingAdd(agent.inputTokens, hook.inputTokens),
                      outputTokens := SaturatingAdd(agent.outputTokens, hook.outputTokens),
                      controlCapable := agent.controlCapable || hook.controlCapable);
      if updatesCurrentState {
        agent := Identify(agent, hook);
        agent := Readings(agent, hook);
        agent := Transition(agent, hook);
      }
      hookAgents := hookAgents[id := agent];
      hooks := Trim([hook] + hooks, config.hookCapacity);
      hookIds := Trim([hook.eventId] + hookIds, config.hookCapacity);
      reply := HookAccepted;
    }

    method EnqueueCommand(agentId: string, action: ControlAction, valid: bool, id: Uuid, now: Time) returns (reply: Reply)
      modifies this`commands
      ensures var call := Call.EnqueueCommand(agentId, action, valid, id, now);
              reply == ReplyTo(old(View()), call) && View() == Step(config, old(View()), call)
    {
      if !valid { return Refused(Invalid); }
      if agentId !in hookAgents || !hookAgents[agentId].controlCapable { return Refused(AgentNotHookBacked); }
      var command := Command(id, now, agentId, action, ControlStatus.Pending, None, None);
      commands := Trim([command] + commands, config.commandCapacity);
      reply := CommandIs(command);
    }

    /** The retained pending commands of the agent, newest first; nothing is consumed. */
    method PendingCommands(agentId: string, valid: bool) returns (reply: Option<seq<Command>>)
      ensures reply == if valid then Some(PendingOf(commands, agentId)) else None
    {
      if !valid { return None; }
      var pending := [];
      for n := 0 to |commands|
        invariant pending == PendingOf(commands[..n], agentId)
      {
        assert commands[..n + 1][..n] == commands[..n];
        if commands[n].agentId == agentId && commands[n].status.Pending? {
          pending := pending + [commands[n]];
        }
      }
      assert commands[..|commands|] == commands;
      reply := Some(pending);
    }

    method AcknowledgeCommand(ack: Ack, valid: bool, now: Time) returns (reply: Reply)
      modifies this`commands
      ensures var call := Call.AcknowledgeCommand(ack, valid, now);
              reply == ReplyTo(old(View()), call) && View() == Step(config, old(View()), call)
    {
      if !valid { return Refused(Invalid); }
      var i := 0;
      while i < |commands| && commands[i].id != ack.commandId
        invariant i <= Find(commands, ack.commandId)
      {
        i := i + 1;
      }
      if i == |commands| { return Refused(CommandNotFound); }
      if commands[i].agentId != ack.agentId { return Refused(CommandAgentMismatch); }
      var command := commands[i].(status := if ack.accepted then Acknowledged else Rejected,
                                  acknowledgedAt := Some(now), message := ack.message);
      commands := commands[i := command];
      reply := CommandIs(command);
    }
  }

  /** Reported readings replace the old ones; a missing reading keeps them. */
  method Readings(a: HookAgent, hook: Hook) returns (agent: HookAgent)
    ensures agent == a.(confidence := OrElse(hook.confidence, a.confidence), cpuPercent := OrElse(hook.cpuPercent, a.cpuPercent),
                        rssBytes := OrElse(hook.rssBytes, a.rssBytes), memoryPercent := OrElse(hook.memoryPercent, a.memoryPercent))
  {
    agent := a;
    if hook.confidence.Some? { agent := agent.(confidence := hook.confidence); }
    if hook.cpuPercent.Some? { agent := agent.(cpuPercent := hook.cpuPercent); }
    if hook.rssBytes.Some? { agent := agent.(rssBytes := hook.rssBytes); }
    if hook.memoryPercent.Some? { agent := agent.(memoryPercent := hook.memoryPercent); }
  }

  method Identify(a: HookAgent, hook: Hook) returns (agent: HookAgent)
    ensures agent == a.(agent := hook.agent, lastHookAt := hook.occurredAt, sessionId := OrElse(hook.sessionId, a.sessionId),
                        pid := OrElse(hook.pid, a.pid), activity := OrElse(hook.summary, a.activity))
  {
    agent := a.(agent := hook.agent, lastHookAt := hook.occurredAt);
    if hook.sessionId.Some? { agent := agent.(sessionId := hook.sessionId); }
    if hook.pid.Some? { agent := agent.(pid := hook.pid); }
    if hook.summary.Some? { agent := agent.(activity := hook.summary); }
  }

  method Transition(a: HookAgent, hook: Hook) returns (agent: HookAgent)
    ensures agent == a.(status := StatusAfter(hook.kind, a.status), tool := ToolAfter(hook, a.tool))
  {
    agent := a;
    match hook.kind {
      case SessionStarted | Activity | ModelResponse =>
        agent := agent.(status := RuntimeStatus.Running);
      case Heartbeat | ConfidenceReported =>
      case ToolStarted =>
        agent := agent.(status := RuntimeStatus.Running, tool := hook.toolName);
      case ToolFinished =>
        agent := agent.(status := RuntimeStatus.Running, tool := None);
      case ErrorObserved =>
        agent := agent.(status := RuntimeStatus.Failed);
      case SessionFinished =>
        agent := agent.(status := RuntimeStatus.Idle, tool := None);
    }
  }
}
