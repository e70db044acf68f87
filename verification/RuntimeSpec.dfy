/** The runtime monitor of `src/runtime/monitor.rs` as a machine of locked sections: hook
    ingestion, command issue and command acknowledgement. */
module RuntimeSpec {
  import opened Model
  import opened Recency

  datatype HookKind =
    | SessionStarted | Heartbeat | Activity | ToolStarted | ToolFinished
    | ModelResponse | ConfidenceReported | ErrorObserved | SessionFinished

  datatype Hook = Hook(
    eventId: Uuid, occurredAt: Time, agent: AgentRef, sessionId: Option<string>, pid: Option<nat>,
    kind: HookKind, controlCapable: bool, summary: Option<string>, toolName: Option<string>,
    confidence: Option<real>, cpuPercent: Option<real>, rssBytes: Option<nat>, memoryPercent: Option<real>,
    inputTokens: nat, outputTokens: nat)

  datatype RuntimeStatus = Observed | Running | Failed | Idle

  datatype HookAgent = HookAgent(
    agent: AgentRef, sessionId: Option<string>, pid: Option<nat>, status: RuntimeStatus,
    activity: Option<string>, tool: Option<string>, confidence: Option<real>,
    cpuPercent: Option<real>, rssBytes: Option<nat>, memoryPercent: Option<real>,
    controlCapable: bool, inputTokens: nat, outputTokens: nat, lastHookAt: Time)

  datatype ControlAction = Pause | Resume | Stop

  datatype ControlStatus = Pending | Acknowledged | Rejected

  datatype Command = Command(
    id: Uuid, createdAt: Time, agentId: string, action: ControlAction,
    status: ControlStatus, acknowledgedAt: Option<Time>, message: Option<string>)

  datatype Ack = Ack(commandId: Uuid, agentId: string, accepted: bool, message: Option<string>)

  datatype Error = Invalid | DuplicateHook | AgentNotHookBacked | CommandNotFound | CommandAgentMismatch

  datatype Reply = HookAccepted | CommandIs(command: Command) | Refused(error: Error)

  datatype Config = Config(hookCapacity: nat, commandCapacity: nat)

  datatype State = State(hooks: seq<Hook>, hookIds: seq<Uuid>, agents: map<string, HookAgent>, commands: seq<Command>)

  /** A call: `valid` is the verdict of field validation, `id` and `now` the generated
      command id and the clock. */
  datatype Call =
    | IngestHook(hook: Hook, valid: bool)
    | EnqueueCommand(agentId: string, action: ControlAction, valid: bool, id: Uuid, now: Time)
    | AcknowledgeCommand(ack: Ack, valid: bool, now: Time)

  const EMPTY := State([], [], map[], [])

  // ---------- hooks ----------

  function NewAgent(h: Hook): HookAgent {
    HookAgent(h.agent, h.sessionId, h.pid, Observed, None, None, None, h.cpuPercent, h.rssBytes, h.memoryPercent,
              h.controlCapable, 0, 0, h.occurredAt)
  }

  function OrElse<T>(x: Option<T>, y: Option<T>): Option<T> {
    if x.Some? then x else y
  }

  function StatusAfter(kind: HookKind, status: RuntimeStatus): RuntimeStatus {
    match kind
    case Heartbeat => status
    case ConfidenceReported => status
    case ErrorObserved => RuntimeStatus.Failed
    case SessionFinished => RuntimeStatus.Idle
    case _ => RuntimeStatus.Running
  }

  function ToolAfter(h: Hook, tool: Option<string>): Option<string> {
    match h.kind
    case ToolStarted => h.toolName
    case ToolFinished => None
    case SessionFinished => None
    case _ => tool
  }

  /** Tokens and capability accumulate whatever the order; the rest follows only hooks that
      are not older than the newest one seen. */
  function Merge(a: HookAgent, h: Hook): HookAgent {
    var counted := a.(inputTokens := SaturatingAdd(a.inputTokens, h.inputTokens),
                      outputTokens := SaturatingAdd(a.outputTokens, h.outputTokens),
                      controlCapable := a.controlCapable || h.controlCapable);
    if h.occurredAt < a.lastHookAt then counted
    else
      counted.(agent := h.agent, sessionId := OrElse(h.sessionId, a.sessionId), pid := OrElse(h.pid, a.pid),
               lastHookAt := h.occurredAt, confidence := OrElse(h.confidence, a.confidence),
               cpuPercent := OrElse(h.cpuPercent, a.cpuPercent), rssBytes := OrElse(h.rssBytes, a.rssBytes),
               memoryPercent := OrElse(h.memoryPercent, a.memoryPercent), activity := OrElse(h.summary, a.activity),
               status := StatusAfter(h.kind, a.status), tool := ToolAfter(h, a.tool))
  }

  function Register(agents: map<string, HookAgent>, h: Hook): map<string, HookAgent> {
    var id := h.agent.agentId;
    agents[id := Merge(if id in agents then agents[id] else NewAgent(h), h)]
  }

  // ---------- commands ----------

  predicate Capable(agents: map<string, HookAgent>, id: string) {
    id in agents && agents[id].controlCapable
  }

  function Issue(c: Call): Command
    requires c.EnqueueCommand?
  {
    Command(c.id, c.now, c.agentId, c.action, ControlStatus.Pending, None, None)
  }

  /** The position of the newest retained command with this id, or the length. */
  function Find(commands: seq<Command>, id: Uuid): (i: nat)
    ensures i <= |commands| && (i < |commands| ==> commands[i].id == id)
    ensures forall k :: 0 <= k < i ==> commands[k].id != id
  {
    if commands == [] || commands[0].id == id then 0 else 1 + Find(commands[1..], id)
  }

  function Verdict(accepted: bool): ControlStatus {
    if accepted then Acknowledged else Rejected
  }

  function Resolve(c: Command, ack: Ack, now: Time): Command {
    c.(status := Verdict(ack.accepted), acknowledgedAt := Some(now), message := ack.message)
  }

  // ---------- one call ----------

  function ReplyTo(st: State, c: Call): Reply {
    if !c.valid then Refused(Invalid)
    else
      match c
      case IngestHook(h, _) => if h.eventId in st.hookIds then Refused(DuplicateHook) else HookAccepted
      case EnqueueCommand(agentId, _, _, _, _) =>
        if Capable(st.agents, agentId) then CommandIs(Issue(c)) else Refused(AgentNotHookBacked)
      case AcknowledgeCommand(ack, _, now) =>
        var i := Find(st.commands, ack.commandId);
        if i == |st.commands| then Refused(CommandNotFound)
        else if st.commands[i].agentId != ack.agentId then Refused(CommandAgentMismatch)
        else CommandIs(Resolve(st.commands[i], ack, now))
  }

  /** The state after a call; a refused call changes nothing. */
  function Step(cfg: Config, st: State, c: Call): State {
    if ReplyTo(st, c).Refused? then st
    else
      match c
      case IngestHook(h, _) =>
        st.(hooks := Take([h] + st.hooks, cfg.hookCapacity), hookIds := Take([h.eventId] + st.hookIds, cfg.hookCapacity),
            agents := Register(st.agents, h))
      case EnqueueCommand(_, _, _, _, _) => st.(commands := Take([Issue(c)] + st.commands, cfg.commandCapacity))
      case AcknowledgeCommand(ack, _, now) =>
        var i := Find(st.commands, ack.commandId);
        st.(commands := st.commands[i := Resolve(st.commands[i], ack, now)])
  }

  function Run(cfg: Config, calls: seq<Call>): State {
    if calls == [] then EMPTY
    else Step(cfg, Run(cfg, calls[..|calls| - 1]), calls[|calls| - 1])
  }
}
