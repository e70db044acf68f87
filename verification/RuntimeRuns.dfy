/** What the runtime monitor guarantees after any sequence of calls. */
module RuntimeRuns {
  import opened Sequences
  import opened Model
  import opened Recency
  import opened Histories
  import opened RuntimeSpec

  predicate Accepts(cfg: Config, calls: seq<Call>)
    requires calls != []
  {
    var n := |calls| - 1;
    !ReplyTo(Run(cfg, calls[..n]), calls[n]).Refused?
  }

  /** The hooks accepted so far, newest first. */
  function AcceptedHooks(cfg: Config, calls: seq<Call>): seq<Hook> {
    if calls == [] then []
    else
      var n := |calls| - 1;
      var before := AcceptedHooks(cfg, calls[..n]);
      if calls[n].IngestHook? && Accepts(cfg, calls) then [calls[n].hook] + before else before
  }

  /** The commands issued so far, as issued, newest first. */
  function IssuedCommands(cfg: Config, calls: seq<Call>): seq<Command> {
    if calls == [] then []
    else
      var n := |calls| - 1;
      var before := IssuedCommands(cfg, calls[..n]);
      if calls[n].EnqueueCommand? && Accepts(cfg, calls) then [Issue(calls[n])] + before else before
  }

  function Ids(hooks: seq<Hook>): (r: seq<Uuid>)
    ensures |r| == |hooks| && forall i :: 0 <= i < |r| ==> r[i] == hooks[i].eventId
  {
    seq(|hooks|, i requires 0 <= i < |hooks| => hooks[i].eventId)
  }

  // ---------- the hook window ----------

  lemma IdsOfTake(hooks: seq<Hook>, n: nat)
    ensures Ids(Take(hooks, n)) == Take(Ids(hooks), n)
  {
    TakeIsPrefix(hooks, n);
    TakeIsPrefix(Ids(hooks), n);
  }

  lemma TakeNext<T>(x: T, s: seq<T>, n: nat)
    ensures Take([x] + Take(s, n), n) == Take([x] + s, n)
  {
    TakeIsPrefix(s, n);
    TakeIsPrefix([x] + s, n);
    TakeIsPrefix([x] + Take(s, n), n);
  }

  lemma IdsOfNext(h: Hook, hooks: seq<Hook>)
    ensures Ids([h] + hooks) == [h.eventId] + Ids(hooks)
  {}

  lemma DistinctNext<T>(x: T, s: seq<T>)
    requires Distinct(s) && x !in s
    ensures Distinct([x] + s)
  {}

  ghost predicate WindowExact(cfg: Config, st: State, accepted: seq<Hook>) {
    st.hooks == Take(accepted, cfg.hookCapacity) && st.hookIds == Ids(st.hooks) && Distinct(st.hookIds)
  }

  lemma HookStepKeepsWindow(cfg: Config, st: State, h: Hook, accepted: seq<Hook>)
    requires WindowExact(cfg, st, accepted) && h.eventId !in st.hookIds
    ensures WindowExact(cfg, Step(cfg, st, IngestHook(h, true)), [h] + accepted)
  {
    TakeNext(h, accepted, cfg.hookCapacity);
    IdsOfNext(h, st.hooks);
    IdsOfTake([h] + st.hooks, cfg.hookCapacity);
    DistinctNext(h.eventId, st.hookIds);
    TakeDistinct([h.eventId] + st.hookIds, cfg.hookCapacity);
    hide Take, Distinct, Register, Find;
  }

  /** After any run the retained hooks are exactly the `hook_capacity` most recently accepted
      ones, `hook_ids` lists their ids in the same order, and no id occurs twice. */
  lemma {:induction false} HookWindowIsExact(cfg: Config, calls: seq<Call>)
    ensures WindowExact(cfg, Run(cfg, calls), AcceptedHooks(cfg, calls))
    ensures |Run(cfg, calls).hooks| <= cfg.hookCapacity
    decreases |calls|
  {
    if calls != [] {
      var n := |calls| - 1;
      var st, c := Run(cfg, calls[..n]), calls[n];
      HookWindowIsExact(cfg, calls[..n]);
      if Accepts(cfg, calls) && c.IngestHook? {
        HookStepKeepsWindow(cfg, st, c.hook, AcceptedHooks(cfg, calls[..n]));
      } else {
        OtherCallsKeepHooks(cfg, st, c);
      }
      hide Step, ReplyTo, Distinct;
    }
  }

  lemma OtherCallsKeepHooks(cfg: Config, st: State, c: Call)
    requires !c.IngestHook? || ReplyTo(st, c).Refused?
    ensures var g := Step(cfg, st, c); g.hooks == st.hooks && g.hookIds == st.hookIds && g.agents == st.agents
  {}

  /** A hook is refused as a duplicate exactly when its id is among the last
      `hook_capacity` accepted ones. */
  lemma DuplicateIffRecentlyAccepted(cfg: Config, calls: seq<Call>, h: Hook)
    ensures var accepted := AcceptedHooks(cfg, calls);
            ReplyTo(Run(cfg, calls), IngestHook(h, true)) == Refused(DuplicateHook)
            <==> exists i :: 0 <= i < |accepted| && i < cfg.hookCapacity && accepted[i].eventId == h.eventId
  {
    var st, accepted := Run(cfg, calls), AcceptedHooks(cfg, calls);
    HookWindowIsExact(cfg, calls);
    TakeIsPrefix(accepted, cfg.hookCapacity);
    assert forall i :: 0 <= i < |st.hooks| ==> st.hookIds[i] == accepted[i].eventId;
    hide Run, AcceptedHooks, Distinct, Take;
    if h.eventId in st.hookIds {
      var i :| 0 <= i < |st.hookIds| && st.hookIds[i] == h.eventId;
      assert accepted[i].eventId == h.eventId;
    } else {
      forall i | 0 <= i < |accepted| && i < cfg.hookCapacity ensures accepted[i].eventId != h.eventId {
        assert st.hookIds[i] == accepted[i].eventId;
      }
    }
  }

  // ---------- per-agent totals ----------

  function OfAgent(hooks: seq<Hook>, a: string): (r: seq<Hook>)
    ensures forall h :: h in r <==> h in hooks && h.agent.agentId == a
  {
    if hooks == [] then []
    else
      assert hooks == [hooks[0]] + hooks[1..];
      if hooks[0].agent.agentId == a then [hooks[0]] + OfAgent(hooks[1..], a) else OfAgent(hooks[1..], a)
  }

  /** The unbounded sum of the reported deltas. */
  function InputSum(hooks: seq<Hook>): nat {
    if hooks == [] then 0 else hooks[0].inputTokens + InputSum(hooks[1..])
  }

  function OutputSum(hooks: seq<Hook>): nat {
    if hooks == [] then 0 else hooks[0].outputTokens + OutputSum(hooks[1..])
  }

  function Saturated(n: nat): nat {
    if n > U64_MAX then U64_MAX else n
  }

  /** The hook that speaks for the agent: the latest one and, of several at that instant, the
      one that arrived last. */
  function Newest(hooks: seq<Hook>): (r: Hook)
    requires hooks != []
    ensures r in hooks && forall h :: h in hooks ==> h.occurredAt <= r.occurredAt
  {
    if |hooks| == 1 then hooks[0]
    else
      var r := Newest(hooks[1..]);
      assert hooks == [hooks[0]] + hooks[1..];
      if r.occurredAt <= hooks[0].occurredAt then hooks[0] else r
  }

  ghost predicate AnyCapable(hooks: seq<Hook>) {
    exists h :: h in hooks && h.controlCapable
  }

  /** Of hooks listed newest arrival first, those that were not older than any before them
      when they arrived, oldest first. */
  function Current(hooks: seq<Hook>): seq<Hook> {
    if hooks == [] then []
    else
      var before := Current(hooks[1..]);
      if |hooks| == 1 || Newest(hooks[1..]).occurredAt <= hooks[0].occurredAt then before + [hooks[0]] else before
  }

  predicate SetsStatus(h: Hook) { !h.kind.Heartbeat? && !h.kind.ConfidenceReported? }

  predicate SetsTool(h: Hook) { h.kind.ToolStarted? || h.kind.ToolFinished? || h.kind.SessionFinished? }

  predicate HasSession(h: Hook) { h.sessionId.Some? }

  predicate HasPid(h: Hook) { h.pid.Some? }

  predicate HasSummary(h: Hook) { h.summary.Some? }

  predicate HasConfidence(h: Hook) { h.confidence.Some? }

  predicate HasCpu(h: Hook) { h.cpuPercent.Some? }

  predicate HasRss(h: Hook) { h.rssBytes.Some? }

  predicate HasMemory(h: Hook) { h.memoryPercent.Some? }

  /** Status and tool as the last current hook that says something about them left them. */
  ghost predicate WorkExact(r: HookAgent, current: seq<Hook>) {
    && (match LastWhere(current, SetsStatus)
        case None => r.status.Observed?
        case Some(h) =>
          if h.kind.ErrorObserved? then r.status.Failed? else if h.kind.SessionFinished? then r.status.Idle? else r.status.Running?)
    && (match LastWhere(current, SetsTool)
        case None => r.tool == None
        case Some(h) => r.tool == if h.kind.ToolStarted? then h.toolName else None)
  }

  /** Session, process, activity and readings as last reported by a current hook. */
  ghost predicate ReadingsExact(r: HookAgent, current: seq<Hook>) {
    && (match LastWhere(current, HasSession) case None => r.sessionId == None case Some(h) => r.sessionId == h.sessionId)
    && (match LastWhere(current, HasPid) case None => r.pid == None case Some(h) => r.pid == h.pid)
    && (match LastWhere(current, HasSummary) case None => r.activity == None case Some(h) => r.activity == h.summary)
    && (match LastWhere(current, HasConfidence) case None => r.confidence == None case Some(h) => r.confidence == h.confidence)
    && (match LastWhere(current, HasCpu) case None => r.cpuPercent == None case Some(h) => r.cpuPercent == h.cpuPercent)
    && (match LastWhere(current, HasRss) case None => r.rssBytes == None case Some(h) => r.rssBytes == h.rssBytes)
    && (match LastWhere(current, HasMemory) case None => r.memoryPercent == None case Some(h) => r.memoryPercent == h.memoryPercent)
  }

  /** The record of an agent that reported `hooks`, newest arrival first. */
  ghost predicate RecordExact(r: HookAgent, hooks: seq<Hook>)
    requires hooks != []
  {
    && r.inputTokens == Saturated(InputSum(hooks)) && r.outputTokens == Saturated(OutputSum(hooks))
    && r.controlCapable == AnyCapable(hooks)
    && r.lastHookAt == Newest(hooks).occurredAt && r.agent == Newest(hooks).agent
    && WorkExact(r, Current(hooks)) && ReadingsExact(r, Current(hooks))
  }

  ghost predicate AgentExact(agents: map<string, HookAgent>, accepted: seq<Hook>, a: string) {
    var hooks := OfAgent(accepted, a);
    if hooks == [] then a !in agents else a in agents && RecordExact(agents[a], hooks)
  }

  lemma NextWork(r: HookAgent, h: Hook, current: seq<Hook>)
    requires WorkExact(r, current) && r.lastHookAt <= h.occurredAt
    ensures WorkExact(Merge(r, h), current + [h])
  {
    LastWhereNext(current, h, SetsStatus);
    LastWhereNext(current, h, SetsTool);
    hide LastWhere;
  }

  lemma NextReadings(r: HookAgent, h: Hook, current: seq<Hook>)
    requires ReadingsExact(r, current) && r.lastHookAt <= h.occurredAt
    ensures ReadingsExact(Merge(r, h), current + [h])
  {
    LastWhereNext(current, h, HasSession);
    LastWhereNext(current, h, HasPid);
    LastWhereNext(current, h, HasSummary);
    LastWhereNext(current, h, HasConfidence);
    LastWhereNext(current, h, HasCpu);
    LastWhereNext(current, h, HasRss);
    LastWhereNext(current, h, HasMemory);
    hide LastWhere;
  }

  lemma OutdatedHook(r: HookAgent, h: Hook, current: seq<Hook>)
    requires WorkExact(r, current) && ReadingsExact(r, current) && h.occurredAt < r.lastHookAt
    ensures WorkExact(Merge(r, h), current) && ReadingsExact(Merge(r, h), current)
  {}

  lemma FirstDetails(h: Hook)
    ensures WorkExact(Merge(NewAgent(h), h), [h]) && ReadingsExact(Merge(NewAgent(h), h), [h])
  {
    LastWhereOne(h, SetsStatus);
    LastWhereOne(h, SetsTool);
    LastWhereOne(h, HasSession);
    LastWhereOne(h, HasPid);
    LastWhereOne(h, HasSummary);
    LastWhereOne(h, HasConfidence);
    LastWhereOne(h, HasCpu);
    LastWhereOne(h, HasRss);
    LastWhereOne(h, HasMemory);
    hide LastWhere;
  }

  lemma SumsOfOne(h: Hook)
    ensures InputSum([h]) == h.inputTokens && OutputSum([h]) == h.outputTokens && Current([h]) == [h]
  {
    assert [h][1..] == [];
    assert InputSum([]) == 0 && OutputSum([]) == 0;
    assert [] + [h] == [h];
  }

  lemma FirstHookIsExact(h: Hook)
    ensures RecordExact(Merge(NewAgent(h), h), [h])
  {
    FirstDetails(h);
    assert [] + [h] == [h];
    SumsOfOne(h);
    assert h in [h];
    hide WorkExact, ReadingsExact;
  }

  lemma NextHookIsExact(r: HookAgent, h: Hook, hooks: seq<Hook>)
    requires hooks != [] && RecordExact(r, hooks)
    ensures RecordExact(Merge(r, h), [h] + hooks)
  {
    var all := [h] + hooks;
    assert all[1..] == hooks;
    assert AnyCapable(all) <==> h.controlCapable || AnyCapable(hooks) by {
      if h.controlCapable { assert h in all; }
      if AnyCapable(hooks) {
        var w :| w in hooks && w.controlCapable;
        assert w in all;
      }
    }
    if r.lastHookAt <= h.occurredAt {
      NextWork(r, h, Current(hooks));
      NextReadings(r, h, Current(hooks));
    } else {
      OutdatedHook(r, h, Current(hooks));
    }
    hide WorkExact, ReadingsExact, LastWhere, AnyCapable;
  }

  lemma RegisterIsExact(agents: map<string, HookAgent>, h: Hook, accepted: seq<Hook>, a: string)
    requires AgentExact(agents, accepted, a)
    ensures AgentExact(Register(agents, h), [h] + accepted, a)
  {
    var hooks := OfAgent(accepted, a);
    assert ([h] + accepted)[1..] == accepted;
    hide RecordExact, Merge;
    if h.agent.agentId == a {
      if hooks == [] {
        FirstHookIsExact(h);
        assert [h] + hooks == [h];
      } else { NextHookIsExact(agents[a], h, hooks); }
    }
  }

  /** After any run an agent is known exactly if one of its hooks was accepted, and then its
      token totals are the saturated sums of all accepted deltas, it is control-capable
      exactly if some accepted hook said so, and its identity is that of the newest hook. */
  lemma {:induction false} AgentRecordsAreExact(cfg: Config, calls: seq<Call>, a: string)
    ensures AgentExact(Run(cfg, calls).agents, AcceptedHooks(cfg, calls), a)
    decreases |calls|
  {
    if calls != [] {
      var n := |calls| - 1;
      var st, c := Run(cfg, calls[..n]), calls[n];
      AgentRecordsAreExact(cfg, calls[..n], a);
      if Accepts(cfg, calls) && c.IngestHook? {
        RegisterIsExact(st.agents, c.hook, AcceptedHooks(cfg, calls[..n]), a);
        assert Step(cfg, st, c).agents == Register(st.agents, c.hook);
      } else {
        OtherCallsKeepHooks(cfg, st, c);
      }
      hide Step, ReplyTo, AgentExact, Register;
    }
  }

  // ---------- arrival order ----------

  lemma {:induction false} SumsSplit(s: seq<Hook>, t: seq<Hook>)
    ensures InputSum(s + t) == InputSum(s) + InputSum(t) && OutputSum(s + t) == OutputSum(s) + OutputSum(t)
  {
    if s == [] {
      assert s + t == t;
    } else {
      assert (s + t)[1..] == s[1..] + t;
      SumsSplit(s[1..], t);
    }
  }

  lemma SumsRemove(t: seq<Hook>, i: nat)
    requires i < |t|
    ensures InputSum(t) == t[i].inputTokens + InputSum(t[..i] + t[i + 1..])
    ensures OutputSum(t) == t[i].outputTokens + OutputSum(t[..i] + t[i + 1..])
  {
    assert t == t[..i] + t[i..] && t[i..][1..] == t[i + 1..];
    SumsSplit(t[..i], t[i..]);
    SumsSplit(t[..i], t[i + 1..]);
  }

  lemma {:induction false} SumsIgnoreOrder(s: seq<Hook>, t: seq<Hook>)
    requires multiset(s) == multiset(t)
    ensures InputSum(s) == InputSum(t) && OutputSum(s) == OutputSum(t)
  {
    hide InputSum, OutputSum;
    if s == [] {
      assert |t| == |multiset(t)| == 0;
    } else {
      assert s[0] in multiset(t);
      var i :| 0 <= i < |t| && t[i] == s[0];
      RemoveBoth(s, 0, t, i);
      SumsRemove(t, i);
      SumsRemove(s, 0);
      SumsIgnoreOrder(s[..0] + s[0 + 1..], t[..i] + t[i + 1..]);
    }
  }

  /** Two runs that accepted the same hooks of an agent, in whatever arrival order, agree on
      its token totals, its capability and its last-hook time, and, when no two of those
      hooks carry the same instant, on its identity. */
  lemma ArrivalOrderDoesNotMatter(cfg: Config, xs: seq<Call>, ys: seq<Call>, a: string)
    requires multiset(OfAgent(AcceptedHooks(cfg, xs), a)) == multiset(OfAgent(AcceptedHooks(cfg, ys), a))
    ensures var f, g := Run(cfg, xs).agents, Run(cfg, ys).agents;
            && (a in f <==> a in g)
            && (a in f ==>
                  && f[a].inputTokens == g[a].inputTokens && f[a].outputTokens == g[a].outputTokens
                  && f[a].controlCapable == g[a].controlCapable && f[a].lastHookAt == g[a].lastHookAt)
            && (a in f && DistinctInstants(OfAgent(AcceptedHooks(cfg, xs), a)) ==> f[a].agent == g[a].agent)
  {
    AgentRecordsAreExact(cfg, xs, a);
    AgentRecordsAreExact(cfg, ys, a);
    var s, t := OfAgent(AcceptedHooks(cfg, xs), a), OfAgent(AcceptedHooks(cfg, ys), a);
    SumsIgnoreOrder(s, t);
    SameMembers(s, t);
    hide Run, AcceptedHooks, OfAgent, InputSum, OutputSum;
    if s != [] {
      assert s[0] in t;
      assert AnyCapable(s) <==> AnyCapable(t);
      assert Newest(s) in t && Newest(t) in s;
    } else {
      assert forall h :: h !in t;
    }
  }

  ghost predicate DistinctInstants(hooks: seq<Hook>) {
    forall x, y :: x in hooks && y in hooks && x.occurredAt == y.occurredAt ==> x == y
  }

  // ---------- commands ----------

  function Identity(c: Command): Command {
    c.(status := ControlStatus.Pending, acknowledgedAt := None, message := None)
  }

  function Identities(commands: seq<Command>): (r: seq<Command>)
    ensures |r| == |commands| && forall i :: 0 <= i < |r| ==> r[i] == Identity(commands[i])
  {
    seq(|commands|, i requires 0 <= i < |commands| => Identity(commands[i]))
  }

  lemma IssueKeepsIdentities(c: Command, commands: seq<Command>, issued: seq<Command>, n: nat)
    requires Identities(commands) == Take(issued, n) && Identity(c) == c
    ensures Identities(Take([c] + commands, n)) == Take([c] + issued, n)
  {
    TakeNext(c, issued, n);
    TakeIsPrefix([c] + commands, n);
    TakeIsPrefix([c] + Take(issued, n), n);
    hide Take;
    var l, r := Identities(Take([c] + commands, n)), Take([c] + issued, n);
    assert |l| == |r|;
  }

  lemma ResolveKeepsIdentities(commands: seq<Command>, i: nat, ack: Ack, now: Time)
    requires i < |commands|
    ensures Identities(commands[i := Resolve(commands[i], ack, now)]) == Identities(commands)
  {}

  /** After any run the retained commands are the `command_capacity` most recently issued
      ones in order, whatever has become of their status. */
  lemma {:induction false} RetainedCommandsAreTheNewest(cfg: Config, calls: seq<Call>)
    ensures Identities(Run(cfg, calls).commands) == Take(IssuedCommands(cfg, calls), cfg.commandCapacity)
    decreases |calls|
  {
    if calls != [] {
      var n := |calls| - 1;
      var st, c := Run(cfg, calls[..n]), calls[n];
      RetainedCommandsAreTheNewest(cfg, calls[..n]);
      var issued := IssuedCommands(cfg, calls[..n]);
      hide Take, Register;
      if Accepts(cfg, calls) {
        if c.EnqueueCommand? {
          IssueKeepsIdentities(Issue(c), st.commands, issued, cfg.commandCapacity);
        } else if c.AcknowledgeCommand? {
          ResolveKeepsIdentities(st.commands, Find(st.commands, c.ack.commandId), c.ack, c.now);
        }
      }
    }
  }

  // ---------- control capability ----------

  ghost predicate CommandsBacked(st: State) {
    forall i :: 0 <= i < |st.commands| ==> Capable(st.agents, st.commands[i].agentId)
  }

  lemma RegisterKeepsCapable(agents: map<string, HookAgent>, h: Hook, a: string)
    requires Capable(agents, a)
    ensures Capable(Register(agents, h), a)
  {}

  lemma StepKeepsBacking(cfg: Config, st: State, c: Call)
    requires CommandsBacked(st)
    ensures CommandsBacked(Step(cfg, st, c))
  {
    if !ReplyTo(st, c).Refused? {
      match c
      case IngestHook(h, _) =>
        forall i | 0 <= i < |st.commands| ensures Capable(Register(st.agents, h), st.commands[i].agentId) {
          RegisterKeepsCapable(st.agents, h, st.commands[i].agentId);
        }
      case EnqueueCommand(_, _, _, _, _) =>
        TakeIsPrefix([Issue(c)] + st.commands, cfg.commandCapacity);
      case AcknowledgeCommand(_, _, _) =>
    }
  }

  /** Every retained command belongs to an agent that is control-capable, then and in every
      later state. */
  lemma {:induction false} CommandsStayBacked(cfg: Config, calls: seq<Call>)
    ensures CommandsBacked(Run(cfg, calls))
    decreases |calls|
  {
    if calls != [] {
      var n := |calls| - 1;
      CommandsStayBacked(cfg, calls[..n]);
      StepKeepsBacking(cfg, Run(cfg, calls[..n]), calls[n]);
      hide Step, CommandsBacked;
    }
  }

  // ---------- resolution ----------

  function EnqueuedIds(calls: seq<Call>): set<Uuid> {
    if calls == [] then {}
    else
      var n := |calls| - 1;
      EnqueuedIds(calls[..n]) + if calls[n].EnqueueCommand? then {calls[n].id} else {}
  }

  /** Generated command ids never repeat. */
  ghost predicate FreshIds(calls: seq<Call>) {
    calls != [] ==>
      var n := |calls| - 1;
      FreshIds(calls[..n]) && (calls[n].EnqueueCommand? ==> calls[n].id !in EnqueuedIds(calls[..n]))
  }

  datatype Answer = Unanswered | Answered(accepted: bool, at: Time, message: Option<string>)

  /** The last acknowledgement of this command that was not refused. */
  function Resolution(cfg: Config, calls: seq<Call>, id: Uuid): Answer {
    if calls == [] then Unanswered
    else
      var n := |calls| - 1;
      if calls[n].AcknowledgeCommand? && calls[n].ack.commandId == id && Accepts(cfg, calls)
      then Answered(calls[n].ack.accepted, calls[n].now, calls[n].ack.message)
      else Resolution(cfg, calls[..n], id)
  }

  /** The command shows the answer it got: accepted as acknowledged, otherwise as rejected. */
  ghost predicate Shows(c: Command, a: Answer) {
    match a
    case Unanswered => c.status.Pending? && c.acknowledgedAt == None && c.message == None
    case Answered(accepted, at, message) =>
      (if accepted then c.status.Acknowledged? else c.status.Rejected?) && c.acknowledgedAt == Some(at) && c.message == message
  }

  /** Commands follow `resolution`, retained ids are distinct and were all generated, as was
      every id that has a verdict. */
  ghost predicate Resolved(commands: seq<Command>, ids: set<Uuid>, resolution: Uuid -> Answer) {
    && (forall i :: 0 <= i < |commands| ==> commands[i].id in ids && Shows(commands[i], resolution(commands[i].id)))
    && (forall i, k :: 0 <= i < k < |commands| ==> commands[i].id != commands[k].id)
    && (forall id :: resolution(id).Answered? ==> id in ids)
  }

  lemma IssueResolved(commands: seq<Command>, ids: set<Uuid>, resolution: Uuid -> Answer, c: Command, n: nat)
    requires Resolved(commands, ids, resolution) && c.id !in ids && Shows(c, Unanswered)
    ensures Resolved(Take([c] + commands, n), ids + {c.id}, resolution)
  {
    TakeIsPrefix([c] + commands, n);
    hide Take;
    var next := Take([c] + commands, n);
    assert forall i :: 0 < i < |next| ==> next[i] == commands[i - 1];
    assert |next| > 0 ==> next[0] == c;
  }

  lemma AckResolved(commands: seq<Command>, ids: set<Uuid>, before: Uuid -> Answer, after: Uuid -> Answer,
                    i: nat, ack: Ack, now: Time)
    requires Resolved(commands, ids, before) && i < |commands| && commands[i].id == ack.commandId
    requires after(ack.commandId) == Answered(ack.accepted, now, ack.message)
    requires forall id :: id != ack.commandId ==> after(id) == before(id)
    ensures Resolved(commands[i := Resolve(commands[i], ack, now)], ids, after)
  {}

  lemma SameResolution(commands: seq<Command>, ids: set<Uuid>, before: Uuid -> Answer, after: Uuid -> Answer)
    requires Resolved(commands, ids, before) && forall id :: after(id) == before(id)
    ensures Resolved(commands, ids, after)
  {}

  function Verdicts(cfg: Config, calls: seq<Call>): Uuid -> Answer {
    (id: Uuid) => Resolution(cfg, calls, id)
  }

  ghost predicate CommandsResolved(cfg: Config, calls: seq<Call>) {
    Resolved(Run(cfg, calls).commands, EnqueuedIds(calls), Verdicts(cfg, calls))
  }

  lemma MoreIds(commands: seq<Command>, ids: set<Uuid>, more: set<Uuid>, resolution: Uuid -> Answer)
    requires Resolved(commands, ids, resolution) && ids <= more
    ensures Resolved(commands, more, resolution)
  {}

  /** A call that issues or resolves nothing leaves the commands as they are. */
  lemma QuietCall(cfg: Config, st: State, c: Call)
    requires c.IngestHook? || ReplyTo(st, c).Refused?
    ensures Step(cfg, st, c).commands == st.commands
  {}

  /** After any run in which generated ids do not repeat, a retained command shows its last
      accepted acknowledgement, verdict, time and message, and is pending if there was none. */
  lemma {:induction false} StatusIsTheLastVerdict(cfg: Config, calls: seq<Call>)
    requires FreshIds(calls)
    ensures CommandsResolved(cfg, calls)
    decreases |calls|
  {
    if calls != [] {
      var n := |calls| - 1;
      var st, c := Run(cfg, calls[..n]), calls[n];
      StatusIsTheLastVerdict(cfg, calls[..n]);
      var ids, before, after := EnqueuedIds(calls[..n]), Verdicts(cfg, calls[..n]), Verdicts(cfg, calls);
      if Accepts(cfg, calls) && c.EnqueueCommand? {
        IssueResolved(st.commands, ids, before, Issue(c), cfg.commandCapacity);
        SameResolution(Run(cfg, calls).commands, EnqueuedIds(calls), before, after);
      } else if Accepts(cfg, calls) && c.AcknowledgeCommand? {
        AckResolved(st.commands, ids, before, after, Find(st.commands, c.ack.commandId), c.ack, c.now);
      } else {
        QuietCall(cfg, st, c);
        MoreIds(st.commands, ids, EnqueuedIds(calls), before);
        SameResolution(st.commands, EnqueuedIds(calls), before, after);
      }
      hide Step, Resolved, Take;
    }
  }

  lemma {:induction false} ResolutionIsFinal(cfg: Config, past: seq<Call>, future: seq<Call>, id: Uuid)
    requires Resolution(cfg, past, id).Answered?
    ensures Resolution(cfg, past + future, id).Answered?
    decreases |future|
  {
    if future == [] {
      assert past + future == past;
    } else {
      var n := |future| - 1;
      assert (past + future)[..|past| + n] == past + future[..n];
      ResolutionIsFinal(cfg, past, future[..n], id);
      hide Run, ReplyTo;
    }
  }

  lemma {:induction false} FreshPrefix(past: seq<Call>, future: seq<Call>)
    requires FreshIds(past + future)
    ensures FreshIds(past)
    decreases |future|
  {
    if future == [] {
      assert past + future == past;
    } else {
      var n := |future| - 1;
      assert (past + future)[..|past| + n] == past + future[..n];
      FreshPrefix(past, future[..n]);
    }
  }

  /** A resolved command never becomes pending again. */
  lemma ResolvedStaysResolved(cfg: Config, past: seq<Call>, future: seq<Call>, c: Command, d: Command)
    requires FreshIds(past + future)
    requires c in Run(cfg, past).commands && c.status != ControlStatus.Pending
    requires d in Run(cfg, past + future).commands && d.id == c.id
    ensures d.status != ControlStatus.Pending
  {
    FreshPrefix(past, future);
    StatusIsTheLastVerdict(cfg, past);
    StatusIsTheLastVerdict(cfg, past + future);
    hide Run, Resolution, EnqueuedIds, FreshIds;
    ResolutionIsFinal(cfg, past, future, c.id);
  }

  // ---------- refusals ----------

  /** A command is refused for want of capability exactly if no accepted hook of the agent
      declared it. */
  lemma EnqueueNeedsCapability(cfg: Config, calls: seq<Call>, a: string, action: ControlAction, id: Uuid, now: Time)
    ensures ReplyTo(Run(cfg, calls), EnqueueCommand(a, action, true, id, now)) == Refused(AgentNotHookBacked)
            <==> !AnyCapable(OfAgent(AcceptedHooks(cfg, calls), a))
  {
    AgentRecordsAreExact(cfg, calls, a);
    hide Run, AcceptedHooks, OfAgent, WorkExact, ReadingsExact, InputSum, OutputSum, Current;
  }

  /** An acknowledgement is refused as unknown exactly if its command is not among the last
      `command_capacity` issued ones, and as mismatched exactly if the newest such command
      belongs to another agent. */
  lemma AcknowledgementsNeedTheCommand(cfg: Config, calls: seq<Call>, ack: Ack, now: Time)
    ensures var issued := Take(IssuedCommands(cfg, calls), cfg.commandCapacity);
            var reply := ReplyTo(Run(cfg, calls), AcknowledgeCommand(ack, true, now));
            var i := Find(issued, ack.commandId);
            && (reply == Refused(CommandNotFound) <==> forall k :: 0 <= k < |issued| ==> issued[k].id != ack.commandId)
            && (reply == Refused(CommandAgentMismatch) <==> i < |issued| && issued[i].agentId != ack.agentId)
  {
    RetainedCommandsAreTheNewest(cfg, calls);
    var commands := Run(cfg, calls).commands;
    SameFind(commands, ack.commandId);
    hide Run, IssuedCommands, Take;
  }

  lemma {:induction false} SameFind(commands: seq<Command>, id: Uuid)
    ensures Find(Identities(commands), id) == Find(commands, id)
  {
    if commands != [] {
      SameFind(commands[1..], id);
      assert Identities(commands)[1..] == Identities(commands[1..]);
    }
  }

  // ---------- a verdict that is reversed ----------

  const SAMPLE_HOOK := Hook(1, 0, AgentRef("agent", "provider", "model", None), None, None, SessionStarted, true,
                            None, None, None, None, None, None, 0, 0)

  const SAMPLE_COMMAND := Call.EnqueueCommand("agent", Pause, true, 1, 0)

  function SampleAck(accepted: bool): Call { AcknowledgeCommand(Ack(1, "agent", accepted, None), true, 0) }

  lemma RunNext(cfg: Config, calls: seq<Call>, c: Call)
    ensures Run(cfg, calls + [c]) == Step(cfg, Run(cfg, calls), c)
  {
    assert (calls + [c])[..|calls|] == calls;
  }

  lemma FirstCommand(cfg: Config)
    requires cfg.commandCapacity > 0
    ensures Run(cfg, [IngestHook(SAMPLE_HOOK, true), SAMPLE_COMMAND]).commands == [Issue(SAMPLE_COMMAND)]
  {
    var hook := IngestHook(SAMPLE_HOOK, true);
    RunNext(cfg, [], hook);
    RunNext(cfg, [hook], SAMPLE_COMMAND);
    assert [] + [hook] == [hook] && [hook] + [SAMPLE_COMMAND] == [hook, SAMPLE_COMMAND];
    TakeIsPrefix([Issue(SAMPLE_COMMAND)] + Run(cfg, [hook]).commands, cfg.commandCapacity);
    assert Run(cfg, [hook]).commands == [];
  }

  lemma AckFirst(cfg: Config, st: State, accepted: bool)
    requires |st.commands| == 1 && st.commands[0].id == 1 && st.commands[0].agentId == "agent"
    ensures Step(cfg, st, SampleAck(accepted)).commands == [Resolve(st.commands[0], SampleAck(accepted).ack, 0)]
  {}

  /** An acknowledged command can be acknowledged again and is then rejected. */
  lemma VerdictCanBeReversed(cfg: Config)
    requires cfg.commandCapacity > 0
    ensures var calls := [IngestHook(SAMPLE_HOOK, true), SAMPLE_COMMAND, SampleAck(true)];
            var before, after := Run(cfg, calls).commands, Run(cfg, calls + [SampleAck(false)]).commands;
            && |before| == |after| == 1 && before[0].id == after[0].id
            && before[0].status.Acknowledged? && after[0].status.Rejected?
  {
    var issued := [IngestHook(SAMPLE_HOOK, true), SAMPLE_COMMAND];
    FirstCommand(cfg);
    hide Run, Step, SampleAck;
    RunNext(cfg, issued, SampleAck(true));
    AckFirst(cfg, Run(cfg, issued), true);
    var calls := issued + [SampleAck(true)];
    assert calls == [IngestHook(SAMPLE_HOOK, true), SAMPLE_COMMAND, SampleAck(true)];
    AckShape();
    RunNext(cfg, calls, SampleAck(false));
    AckFirst(cfg, Run(cfg, calls), false);
  }

  lemma AckShape()
    ensures SampleAck(true).AcknowledgeCommand? && SampleAck(true).ack.accepted
    ensures SampleAck(false).AcknowledgeCommand? && !SampleAck(false).ack.accepted
  {}
}
