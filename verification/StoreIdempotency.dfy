/** The idempotency window and the revision counter. */
module StoreIdempotency {
  import opened Model
  import opened Lru
  import opened Recency
  import opened StoreSpec
  import opened StoreInvariants
  import opened StoreTasks

  // ---------- what applying an event leaves alone ----------

  ghost predicate SameBookkeeping(s: State, r: State) {
    && r.caps == s.caps && r.events == s.events && r.seen == s.seen && r.counters == s.counters
    && r.revision == s.revision && r.evictions.events == s.evictions.events
    && r.evictions.idempotency == s.evictions.idempotency
  }

  lemma ApplyKeepsBookkeeping(s: State, e: EventEnvelope)
    ensures SameBookkeeping(s, Apply(s, e))
  {
    hide AgentAfter, Gated, Redefined, Push, Put, NewAgent, NewTask, Uncount, Refreshed, Oldest, Evicts;
    assert SameBookkeeping(s, Present(s, e));
  }

  /** A duplicate or rejected submission changes nothing but counters and recency of ids. */
  lemma OnlyAcceptedStepsChangeProjections(s: State, op: Op)
    requires !Accepts(s, op)
    ensures var r := Step(s, op);
            && r.agents == s.agents && r.goals == s.goals && r.tasks == s.tasks && r.lessons == s.lessons
            && r.events == s.events && r.revision == s.revision && r.evictions == s.evictions && r.caps == s.caps
            && r.counters.accepted == s.counters.accepted
  {}

  // ---------- recency lists ----------

  /** The ids of the valid events of a run, in order of presentation. */
  function Presented(ops: seq<Op>): seq<Uuid> {
    if ops == [] then []
    else
      var last := ops[|ops| - 1];
      Presented(ops[..|ops| - 1]) + if last.Submit? && ValidEvent(last.event) then [last.event.eventId] else []
  }

  lemma WindowHit(s: State, op: Op, ids: seq<Uuid>)
    requires Structure(s) && s.seen.order == Take(RecentFirst(ids), s.caps.idempotency)
    requires op.Submit? && ValidEvent(op.event) && op.event.eventId in s.seen.data
    ensures Step(s, op).caps == s.caps
    ensures Step(s, op).seen.order == Take(RecentFirst(ids + [op.event.eventId]), s.caps.idempotency)
  {
    SeenIsValid(s);
    hide Accept, RecentFirst, Structure, Take, Put;
    PutIsRecent(s.seen, ids, s.caps.idempotency, op.event.eventId, s.seen.data[op.event.eventId]);
  }

  lemma WindowMiss(s: State, op: Op, ids: seq<Uuid>)
    requires Structure(s) && s.seen.order == Take(RecentFirst(ids), s.caps.idempotency)
    requires op.Submit? && ValidEvent(op.event) && op.event.eventId !in s.seen.data
    ensures Step(s, op).caps == s.caps
    ensures Step(s, op).seen.order == Take(RecentFirst(ids + [op.event.eventId]), s.caps.idempotency)
  {
    SeenIsValid(s);
    hide Apply, RecentFirst, Structure, Record, Take, Push;
    ApplyKeepsBookkeeping(s, op.event);
    RecordPushesId(Apply(s, op.event), op);
    PushIsRecent(s.seen, ids, s.caps.idempotency, op.event.eventId, SaturatingAdd(s.revision, 1));
  }

  lemma WindowStep(s: State, op: Op, ids: seq<Uuid>)
    requires Structure(s) && s.seen.order == Take(RecentFirst(ids), s.caps.idempotency)
    requires op.Submit? && ValidEvent(op.event)
    ensures Step(s, op).caps == s.caps
    ensures Step(s, op).seen.order == Take(RecentFirst(ids + [op.event.eventId]), s.caps.idempotency)
  {
    hide Step, Take, RecentFirst, Structure;
    if op.event.eventId in s.seen.data { WindowHit(s, op, ids); } else { WindowMiss(s, op, ids); }
  }

  lemma RecordPushesId(s: State, op: Op)
    requires op.Submit?
    ensures var r := Record(s, op.event, op.transport, op.receivedAt);
            r.caps == s.caps &&
            r.seen == Push(s.seen, s.caps.idempotency, op.event.eventId, SaturatingAdd(s.revision, 1))
  {}

  lemma SeenIsValid(s: State)
    requires Structure(s)
    ensures Valid(s.seen, s.caps.idempotency)
  {}

  /** After any run the window holds exactly the most recently presented distinct ids of
      valid events, as many as fit, in recency order. */
  lemma {:induction false} WindowHoldsRecentIds(caps: Capacities, ops: seq<Op>)
    ensures Structure(Run(Initial(caps), ops)) && Run(Initial(caps), ops).caps == caps
    ensures Run(Initial(caps), ops).seen.order == Take(RecentFirst(Presented(ops)), caps.idempotency)
  {
    if ops != [] {
      var op, before := ops[|ops| - 1], ops[..|ops| - 1];
      WindowHoldsRecentIds(caps, before);
      var s := Run(Initial(caps), before);
      StepKeepsStructure(s, op);
      hide Structure, ValidEvent, Take, RecentFirst;
      if op.Submit? && ValidEvent(op.event) {
        hide Step;
        WindowStep(s, op, Presented(before));
      } else {
        assert Presented(ops) == Presented(before);
      }
    }
  }

  // ---------- when a submission is a duplicate ----------

  /** A submission of `id` after this run is flagged as a duplicate. */
  predicate Flagged(caps: Capacities, ops: seq<Op>, id: Uuid) {
    id in Run(Initial(caps), ops).seen.data
  }

  /** An id is flagged exactly when it was presented before and fewer than `capacity`
      other distinct ids were presented since its last presentation. */
  lemma FlaggedIffRecentlyPresented(caps: Capacities, ops: seq<Op>, id: Uuid)
    ensures Flagged(caps, ops, id) <==>
              id in Presented(ops) && |Since(Presented(ops), id)| < caps.idempotency
  {
    hide Run, Presented, RecentFirst, Take, Since;
    WindowHoldsRecentIds(caps, ops);
    RecentIffFewSince(Presented(ops), id, caps.idempotency);
  }

  /** A larger window flags every duplicate that a smaller one flags. */
  lemma LargerWindowFlagsMore(small: Capacities, large: Capacities, ops: seq<Op>, id: Uuid)
    requires small.idempotency <= large.idempotency && Flagged(small, ops, id)
    ensures Flagged(large, ops, id)
  {
    hide Flagged;
    FlaggedIffRecentlyPresented(small, ops, id);
    FlaggedIffRecentlyPresented(large, ops, id);
  }

  // ---------- revisions ----------

  /** How many submissions a run accepts. */
  function AcceptedCount(s: State, ops: seq<Op>): nat {
    if ops == [] then 0
    else
      AcceptedCount(s, ops[..|ops| - 1]) +
      if Accepts(Run(s, ops[..|ops| - 1]), ops[|ops| - 1]) then 1 else 0
  }

  /** The revision counts accepted submissions up to the largest word; below that, it
      equals the accepted counter and the ids ever admitted to the window. */
  lemma {:induction false} RevisionCountsAcceptance(caps: Capacities, ops: seq<Op>)
    ensures var s, n := Run(Initial(caps), ops), AcceptedCount(Initial(caps), ops);
            && Structure(s)
            && s.revision == s.counters.accepted == (if n <= U64_MAX then n else U64_MAX)
            && (n <= U64_MAX ==> |s.seen.order| + s.evictions.idempotency == n)
  {
    if ops != [] {
      var op, before := ops[|ops| - 1], ops[..|ops| - 1];
      RevisionCountsAcceptance(caps, before);
      var s := Run(Initial(caps), before);
      StepKeepsStructure(s, op);
      hide Apply, Structure;
      if Accepts(s, op) {
        ApplyKeepsBookkeeping(s, op.event);
        assert Valid(s.seen, s.caps.idempotency) by { SeenIsValid(s); }
        PushValid(s.seen, s.caps.idempotency, op.event.eventId, SaturatingAdd(s.revision, 1));
      } else if op.Submit? && ValidEvent(op.event) {
        assert Valid(s.seen, s.caps.idempotency) by { SeenIsValid(s); }
        WithoutDistinct(s.seen.order, op.event.eventId);
      }
    }
  }

  /** Later in a run, an equal revision below saturation means that nothing was accepted
      in between, so every projection is the same. */
  lemma {:induction false} EqualRevisionMeansEqualProjections(s: State, ops: seq<Op>)
    requires s.revision < U64_MAX
    ensures Run(s, ops).revision >= s.revision
    ensures Run(s, ops).revision == s.revision ==>
              var r := Run(s, ops);
              && r.events == s.events && r.tasks == s.tasks && r.agents == s.agents
              && r.goals == s.goals && r.lessons == s.lessons && r.evictions == s.evictions
  {
    if ops != [] {
      var op, before := ops[|ops| - 1], ops[..|ops| - 1];
      EqualRevisionMeansEqualProjections(s, before);
      var m := Run(s, before);
      hide Step, Apply;
      if Accepts(m, op) {
        AcceptanceRaisesRevision(m, op);
      } else {
        OnlyAcceptedStepsChangeProjections(m, op);
      }
    }
  }

  lemma AcceptanceRaisesRevision(s: State, op: Op)
    requires Accepts(s, op)
    ensures Step(s, op).revision == SaturatingAdd(s.revision, 1)
  {
    hide Apply;
    ApplyKeepsBookkeeping(s, op.event);
  }

  /** The revision moves by the number of accepted submissions, up to saturation. */
  lemma {:induction false} RevisionAfterRun(s: State, ops: seq<Op>)
    requires s.revision <= U64_MAX
    ensures Run(s, ops).revision == SaturatingAdd(s.revision, AcceptedCount(s, ops))
  {
    if ops != [] {
      var op, before := ops[|ops| - 1], ops[..|ops| - 1];
      RevisionAfterRun(s, before);
      var m := Run(s, before);
      hide Step, Apply;
      if Accepts(m, op) {
        AcceptanceRaisesRevision(m, op);
      } else {
        OnlyAcceptedStepsChangeProjections(m, op);
      }
    }
  }

  /** At the largest revision the guarantee ends: an accepted event changes the retained
      events but not the revision. */
  lemma SaturatedRevisionHidesChanges(s: State, op: Op)
    requires Structure(s) && s.revision == U64_MAX && Accepts(s, op) && op.event.eventId !in s.events.data
    ensures Step(s, op).revision == s.revision && Step(s, op).events != s.events
  {
    hide Apply;
    ApplyKeepsBookkeeping(s, op.event);
    assert op.event.eventId in Step(s, op).events.data;
  }

  // ---------- a run that reaches the largest revision ----------

  /** The heartbeat with id `n + 1`. */
  function Beat(n: nat): Op {
    Submit(EventEnvelope("v1", n + 1, 0, AgentRef("agent", "provider", "model", None), None, Heartbeat(None, None)), Http, 0)
  }

  function Beats(n: nat): seq<Op> {
    if n == 0 then [] else Beats(n - 1) + [Beat(n - 1)]
  }

  lemma RecordedIds(s: State, op: Op)
    requires Structure(s) && Accepts(s, op)
    ensures forall id :: id in Step(s, op).events.data ==> id in s.events.data || id == op.event.eventId
  {
    hide Apply;
    ApplyKeepsBookkeeping(s, op.event);
  }

  lemma {:induction false} BeatsPresent(n: nat)
    ensures forall id :: id in Presented(Beats(n)) ==> id <= n
  {
    if n > 0 {
      BeatsPresent(n - 1);
      assert Beats(n)[..|Beats(n)| - 1] == Beats(n - 1);
    }
  }

  lemma NextBeatIsAccepted(caps: Capacities, n: nat)
    ensures Structure(Run(Initial(caps), Beats(n))) && Accepts(Run(Initial(caps), Beats(n)), Beat(n))
  {
    hide Run, Beats, Presented, Structure;
    BeatsPresent(n);
    WindowHoldsRecentIds(caps, Beats(n));
    FlaggedIffRecentlyPresented(caps, Beats(n), n + 1);
  }

  lemma {:induction false} BeatsAreAccepted(caps: Capacities, n: nat)
    ensures AcceptedCount(Initial(caps), Beats(n)) == n
    ensures forall id :: id in Run(Initial(caps), Beats(n)).events.data ==> id <= n
  {
    hide Step, Structure, Accepts;
    if n > 0 {
      BeatsAreAccepted(caps, n - 1);
      assert Beats(n)[..|Beats(n)| - 1] == Beats(n - 1);
      NextBeatIsAccepted(caps, n - 1);
      RecordedIds(Run(Initial(caps), Beats(n - 1)), Beat(n - 1));
    } else {
      NothingRecorded(caps);
    }
  }

  lemma NothingRecorded(caps: Capacities)
    ensures Initial(caps).revision == 0 && Initial(caps).events.data == map[]
  {}

  /** The largest revision is reached, and the next event changes the retained events
      without changing the revision. */
  lemma LargestRevisionIsReached(caps: Capacities)
    ensures var s := Run(Initial(caps), Beats(U64_MAX));
            var r := Step(s, Beat(U64_MAX));
            s.revision == U64_MAX == r.revision && r.events != s.events
  {
    hide Run, Beats, AcceptedCount, Structure, Step;
    BeatsAreAccepted(caps, U64_MAX);
    NextBeatIsAccepted(caps, U64_MAX);
    NothingRecorded(caps);
    RevisionAfterRun(Initial(caps), Beats(U64_MAX));
    SaturatedRevisionHidesChanges(Run(Initial(caps), Beats(U64_MAX)), Beat(U64_MAX));
  }
}
