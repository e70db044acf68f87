/** The refresh-coalescing page of `scripts/coordination-dashboard.js`, with the server it
    polls, as a machine whose steps are the page's event handlers. */
module Dashboard {
  import opened Model

  /** A fetch in flight; the server has or has not yet computed the plan it will return. */
  datatype Fetch = Requested | Sampled(revision: nat)

  /** The page's fields, the fetches in flight and, for the statements only, the server's
      revision, the revision the page owes its reader and whether the last finished fetch failed.
      The page owes every revision it was told of and, from each resynchronisation, login, poll
      or click on, whatever the server had reached by then. */
  datatype Page = Page(
    plan: Option<nat>, refreshing: bool, dirty: bool, timer: bool,
    inFlight: seq<Fetch>, server: nat, owed: Option<nat>, failed: bool)

  datatype Message = Authenticated | ErrorReport | ResyncRequired | Revision(revision: nat) | Malformed | Unrelated

  datatype Event =
    | Advance                      // the server accepts an event
    | Deliver(message: Message)
    | FireTimer
    | RequestRefresh               // the poll interval or the refresh button
    | Compute(fetch: nat)          // the server builds the plan a fetch will return
    | Succeed(fetch: nat)
    | Fail(fetch: nat)

  const OPENED := Page(None, false, false, false, [], 0, None, false)

  function Schedule(p: Page): Page {
    p.(timer := true)
  }

  function Refresh(p: Page): Page {
    if p.refreshing then p.(dirty := true) else p.(refreshing := true, inFlight := p.inFlight + [Requested])
  }

  /** The `finally` block of `refresh`. */
  function Finish(p: Page, fetch: nat): Page
    requires fetch < |p.inFlight|
  {
    var q := p.(refreshing := false, inFlight := p.inFlight[..fetch] + p.inFlight[fetch + 1..]);
    if q.dirty then Schedule(q.(dirty := false)) else q
  }

  function Later(x: Option<nat>, r: nat): nat {
    if x.Some? && x.value > r then x.value else r
  }

  predicate Behind(p: Page, revision: nat) {
    p.plan.None? || revision > p.plan.value
  }

  /** The page is asked to catch up with the server. */
  function Owes(p: Page): Page {
    p.(owed := Some(Later(p.owed, p.server)))
  }

  /** A notification carries a revision the server has reached. */
  function Receive(p: Page, m: Message): Page {
    match m
    case Authenticated => Refresh(Owes(p))
    case ErrorReport => p
    case Unrelated => p
    case ResyncRequired => Schedule(Owes(p))
    case Malformed => Schedule(Owes(p))
    case Revision(r) =>
      if r > p.server then p
      else
        var q := p.(owed := Some(Later(p.owed, r)));
        if Behind(p, r) then Schedule(q) else q
  }

  /** One step; an event that cannot happen changes nothing. */
  function Step(p: Page, e: Event): Page {
    match e
    case Advance => p.(server := p.server + 1)
    case Deliver(m) => Receive(p, m)
    case FireTimer => if p.timer then Refresh(p.(timer := false)) else p
    case RequestRefresh => Refresh(Owes(p))
    case Compute(i) =>
      if i < |p.inFlight| && p.inFlight[i].Requested? then p.(inFlight := p.inFlight[i := Sampled(p.server)]) else p
    case Succeed(i) =>
      if i < |p.inFlight| && p.inFlight[i].Sampled? then
        Finish(p.(plan := Some(p.inFlight[i].revision), failed := false), i)
      else p
    case Fail(i) => if i < |p.inFlight| then Finish(p.(failed := true), i) else p
  }

  function Steps(p: Page, events: seq<Event>): Page {
    if events == [] then p else Step(Steps(p, events[..|events| - 1]), events[|events| - 1])
  }

  // ---------- the invariant ----------

  predicate Current(p: Page) {
    p.owed.Some? ==> !Behind(p, p.owed.value)
  }

  /** A fetch in flight will bring every owed revision, or another refresh follows it. */
  predicate Covering(p: Page) {
    |p.inFlight| == 1 && (p.dirty || p.inFlight[0].Requested? || Later(p.owed, 0) <= p.inFlight[0].revision)
  }

  predicate Sound(p: Page) {
    && |p.inFlight| == (if p.refreshing then 1 else 0)
    && (p.dirty ==> p.refreshing)
    && Later(p.owed, 0) <= p.server && (p.plan.Some? ==> p.plan.value <= p.server)
    && (p.refreshing && p.inFlight[0].Sampled? ==>
          p.inFlight[0].revision <= p.server && (p.plan.Some? ==> p.plan.value <= p.inFlight[0].revision))
    && (Current(p) || p.timer || (if p.refreshing then Covering(p) else p.failed))
  }

  predicate NotOlder(p: Page, q: Page) {
    p.plan.Some? ==> q.plan.Some? && p.plan.value <= q.plan.value
  }

  lemma RefreshKeepsSound(p: Page)
    requires Sound(p.(timer := true))
    ensures Sound(Refresh(p)) && NotOlder(p, Refresh(p))
  {}

  lemma ReceiveKeepsSound(p: Page, m: Message)
    requires Sound(p) && !m.Authenticated?
    ensures Sound(Receive(p, m)) && NotOlder(p, Receive(p, m))
  {}

  lemma FetchKeepsSound(p: Page, e: Event)
    requires Sound(p) && (e.Compute? || e.Succeed? || e.Fail?)
    ensures Sound(Step(p, e)) && NotOlder(p, Step(p, e))
  {}

  lemma StepKeepsSound(p: Page, e: Event)
    requires Sound(p)
    ensures Sound(Step(p, e)) && NotOlder(p, Step(p, e))
  {
    match e
    case Advance =>
    case Deliver(m) => if m.Authenticated? { RefreshKeepsSound(Owes(p)); } else { ReceiveKeepsSound(p, m); }
    case FireTimer => if p.timer { RefreshKeepsSound(p.(timer := false)); }
    case RequestRefresh => RefreshKeepsSound(Owes(p));
    case _ => FetchKeepsSound(p, e);
  }

  lemma {:induction false} RunKeepsSound(p: Page, events: seq<Event>)
    requires Sound(p)
    ensures Sound(Steps(p, events)) && NotOlder(p, Steps(p, events))
    decreases |events|
  {
    if events != [] {
      var n := |events| - 1;
      RunKeepsSound(p, events[..n]);
      StepKeepsSound(Steps(p, events[..n]), events[n]);
      hide Step, Sound;
    }
  }

  // ---------- what the page promises ----------

  predicate Quiescent(p: Page) {
    !p.timer && p.inFlight == []
  }

  /** Under every interleaving at most one fetch is in flight, and whenever the page is idle
      and its last fetch did not fail, its plan has every revision it owes. */
  lemma NoDeliveredNotificationIsLost(events: seq<Event>)
    ensures var p := Steps(OPENED, events);
            |p.inFlight| <= 1 && (Quiescent(p) && !p.failed ==> Current(p))
  {
    RunKeepsSound(OPENED, events);
  }

  /** The displayed revision never goes back. */
  lemma PlanNeverGoesBack(past: seq<Event>, future: seq<Event>)
    ensures NotOlder(Steps(OPENED, past), Steps(Steps(OPENED, past), future))
  {
    RunKeepsSound(OPENED, past);
    RunKeepsSound(Steps(OPENED, past), future);
  }

  /** A failed fetch is not retried: after it the page can be idle with an owed revision
      missing from its plan. */
  lemma FailedFetchLosesNotification()
    ensures var p := Steps(OPENED, [Advance, Deliver(Revision(1)), FireTimer, Fail(0)]);
            Quiescent(p) && p.failed && !Current(p)
  {
    var s := [Advance, Deliver(Revision(1)), FireTimer, Fail(0)];
    assert s[..3] == [Advance, Deliver(Revision(1)), FireTimer];
    assert s[..3][..2] == [Advance, Deliver(Revision(1))];
    assert s[..3][..2][..1] == [Advance];
    assert s[..3][..2][..1][..0] == [];
    assert Steps(OPENED, [Advance]) == Step(Steps(OPENED, []), Advance);
  }

  /** A failing fetch leaves the page idle without an owed revision exactly when the
      revision was missing before and neither a timer nor a coalesced refresh is pending. */
  lemma FailureLosesExactly(events: seq<Event>)
    requires Steps(OPENED, events).refreshing
    ensures var p := Steps(OPENED, events);
            var q := Step(p, Fail(0));
            Quiescent(q) && !Current(q) <==> !p.timer && !p.dirty && !Current(p)
  {
    RunKeepsSound(OPENED, events);
  }

  /** Letting the page settle: the fetch in flight, then the pending timer and its fetch, succeed. */
  function Settle(p: Page): Page {
    var q := Step(Step(p, Compute(0)), Succeed(0));
    Step(Step(Step(q, FireTimer), Compute(0)), Succeed(0))
  }

  lemma InFlightSucceeds(p: Page)
    requires Sound(p)
    ensures var q := Step(Step(p, Compute(0)), Succeed(0));
            && Sound(q) && q.inFlight == [] && !q.refreshing && !q.dirty
            && (p.inFlight != [] ==> !q.failed) && (p.inFlight == [] ==> q == p)
            && (q.timer <==> p.timer || p.dirty)
  {
    hide Covering, Current;
    StepKeepsSound(p, Compute(0));
    StepKeepsSound(Step(p, Compute(0)), Succeed(0));
  }

  /** From every reachable page, successful fetches alone make it idle, and if anything was
      pending its plan then has every revision it owes, whatever failed before. */
  lemma SettlingCatchesUp(events: seq<Event>)
    ensures var p := Steps(OPENED, events);
            Quiescent(Settle(p)) && (!Quiescent(p) ==> Current(Settle(p)) && !Settle(p).failed)
  {
    hide Step, Steps, Sound;
    var p := Steps(OPENED, events);
    OpenedIsSound();
    RunKeepsSound(OPENED, events);
    InFlightSucceeds(p);
    var q := Step(Step(p, Compute(0)), Succeed(0));
    TimerFires(q);
    InFlightSucceeds(Step(q, FireTimer));
    SoundIsTidy(p);
    if !Quiescent(p) { IdleIsCurrent(Settle(p)); }
  }

  lemma OpenedIsSound()
    ensures Sound(OPENED)
  {}

  lemma TimerFires(q: Page)
    requires Sound(q) && q.inFlight == []
    ensures var r := Step(q, FireTimer);
            Sound(r) && !r.timer && !r.dirty && if q.timer then r.inFlight != [] else r == q
  {
    StepKeepsSound(q, FireTimer);
  }

  lemma IdleIsCurrent(p: Page)
    requires Sound(p) && Quiescent(p) && !p.failed
    ensures Current(p)
  {}

  lemma SoundIsTidy(p: Page)
    requires Sound(p)
    ensures p.dirty ==> p.inFlight != []
  {}

  // ---------- the page's own handlers ----------

  class DashboardPage {
    var plan: Option<nat>
    var refreshing: bool
    var dirty: bool
    var refreshTimer: bool
    ghost var inFlight: seq<Fetch>
    ghost var server: nat
    ghost var owed: Option<nat>
    ghost var failed: bool

    ghost function View(): Page
      reads this
    {
      Page(plan, refreshing, dirty, refreshTimer, inFlight, server, owed, failed)
    }

    constructor ()
      ensures View() == OPENED
    {
      plan, refreshing, dirty, refreshTimer := None, false, false, false;
      inFlight, server, owed, failed := [], 0, None, false;
    }

    method ScheduleRefresh()
      modifies this`refreshTimer
      ensures View() == Schedule(old(View()))
    {
      if refreshTimer { return; }
      refreshTimer := true;
    }

    /** `refresh` up to its first await. */
    method StartRefresh()
      modifies this`refreshing, this`dirty, this`inFlight
      ensures View() == Refresh(old(View()))
    {
      if refreshing {
        dirty := true;
        return;
      }
      refreshing := true;
      inFlight := inFlight + [Requested];
    }

    /** The poll interval, the refresh button or a login. */
    method OnRequest()
      modifies this`refreshing, this`dirty, this`inFlight, this`owed
      ensures View() == Step(old(View()), RequestRefresh)
    {
      owed := Some(Later(owed, server));
      StartRefresh();
    }

    method OnTimer()
      requires refreshTimer
      modifies this`refreshTimer, this`refreshing, this`dirty, this`inFlight
      ensures View() == Step(old(View()), FireTimer)
    {
      refreshTimer := false;
      StartRefresh();
    }

    /** `refresh` after its awaits: `response` is the fetched revision, or none on an error. */
    method FinishRefresh(response: Option<nat>, ghost fetch: nat)
      requires fetch < |inFlight| && (response.Some? ==> inFlight[fetch] == Sampled(response.value))
      modifies this
      ensures View() == Step(old(View()), if response.Some? then Succeed(fetch) else Fail(fetch))
    {
      if response.Some? {
        plan := response;
      }
      failed := response.None?;
      inFlight := inFlight[..fetch] + inFlight[fetch + 1..];
      refreshing := false;
      if dirty {
        dirty := false;
        ScheduleRefresh();
      }
    }

    method OnMessage(message: Message)
      requires message.Revision? ==> message.revision <= server
      modifies this
      ensures View() == Step(old(View()), Deliver(message))
    {
      match message {
        case Authenticated => OnRequest();
        case ErrorReport =>
        case Unrelated =>
        case ResyncRequired =>
          owed := Some(Later(owed, server));
          ScheduleRefresh();
        case Malformed =>
          owed := Some(Later(owed, server));
          ScheduleRefresh();
        case Revision(r) =>
          owed := Some(Later(owed, r));
          if plan.None? || r > plan.value {
            ScheduleRefresh();
          }
      }
    }
  }
}
