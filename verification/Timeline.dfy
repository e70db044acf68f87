/** Keyset pagination over the retained events (`src/timeline.rs`) and what a client gets
    that follows the cursors while the store keeps running. */
module Timeline {
  import opened Sequences
  import opened Model
  import opened Orders
  import opened StoreSpec
  import opened StoreInvariants
  import opened StoreIdempotency
  import opened Store
  import opened Cursor

  const MAX_LIMIT: nat := 100

  datatype PageError = InvalidLimit | InvalidCursor | RevisionChanged(requested: nat, current: nat)

  datatype Page = Page(events: seq<EventRecord>, next: Option<string>, revision: nat, total: nat, returned: nat,
                       remaining: nat, skipped: nat)

  datatype PageResult = Served(page: Page) | Refused(error: PageError)

  function At(r: EventRecord): Time { r.event.occurredAt }

  function Id(r: EventRecord): Uuid { r.event.eventId }

  /** `r` is strictly older than the position `(at, id)`. */
  predicate Older(r: EventRecord, at: Time, id: Uuid) {
    At(r) < at || (At(r) == at && Id(r) < id)
  }

  predicate NewestFirst(x: EventRecord, y: EventRecord) {
    !Older(x, At(y), Id(y))
  }

  function OlderThan(rs: seq<EventRecord>, at: Time, id: Uuid): seq<EventRecord> {
    if rs == [] then []
    else (if Older(rs[0], at, id) then [rs[0]] else []) + OlderThan(rs[1..], at, id)
  }

  ghost predicate EventsFit(range: SecondsRange, rs: seq<EventRecord>) {
    && InWord(range)
    && forall r :: r in rs ==> range.first <= Seconds(At(r)) <= range.last && Id(r) < UUID_LIMIT
  }

  function CursorFor(range: SecondsRange, revision: nat, r: EventRecord): string
    requires EventsFit(range, [r])
  {
    assert r in [r];
    Encode(Cursor(revision, At(r), Id(r)))
  }

  function BuildPage(range: SecondsRange, revision: nat, recent: seq<EventRecord>, limit: nat, cursor: Option<Cursor>): PageResult
    requires EventsFit(range, recent)
  {
    if limit == 0 || limit > MAX_LIMIT then Refused(InvalidLimit)
    else if cursor.Some? && cursor.value.revision != revision
    then Refused(RevisionChanged(cursor.value.revision, revision))
    else
      var retained := Sort(NewestFirst, recent);
      var eligible := if cursor.Some? then OlderThan(retained, cursor.value.occurredAt, cursor.value.eventId) else retained;
      var skipped := SaturatingSub(|retained|, |eligible|);
      var more := |eligible| > limit;
      var events := if more then eligible[..limit] else eligible;
      SortedFit(range, recent, eligible, retained, cursor);
      Served(Page(events, if more then Some(CursorFor(range, revision, events[limit - 1])) else None, revision,
                  |retained|, |events|, if more then SaturatingSub(|retained|, skipped + |events|) else 0, skipped))
  }

  lemma {:induction false} OlderThanInside(rs: seq<EventRecord>, at: Time, id: Uuid)
    ensures forall r :: r in OlderThan(rs, at, id) ==> r in rs
  {
    if rs != [] { OlderThanInside(rs[1..], at, id); }
  }

  lemma SortedFit(range: SecondsRange, recent: seq<EventRecord>, eligible: seq<EventRecord>, retained: seq<EventRecord>, cursor: Option<Cursor>)
    requires EventsFit(range, recent) && retained == Sort(NewestFirst, recent)
    requires eligible == if cursor.Some? then OlderThan(retained, cursor.value.occurredAt, cursor.value.eventId) else retained
    ensures EventsFit(range, retained)
    ensures forall i :: 0 <= i < |eligible| ==> EventsFit(range, [eligible[i]])
  {
    SortMultiset(NewestFirst, recent);
    SameMembers(recent, retained);
    if cursor.Some? { OlderThanInside(retained, cursor.value.occurredAt, cursor.value.eventId); }
    forall i | 0 <= i < |eligible| ensures EventsFit(range, [eligible[i]]) {
      assert eligible[i] in retained;
    }
  }

  // ---------- pages of a strictly descending list ----------

  ghost predicate Descending(rs: seq<EventRecord>) {
    forall i, j :: 0 <= i < j < |rs| ==> Older(rs[j], At(rs[i]), Id(rs[i]))
  }

  ghost predicate DistinctIds(rs: seq<EventRecord>) {
    forall i, j :: 0 <= i < j < |rs| ==> Id(rs[i]) != Id(rs[j])
  }

  lemma NewestFirstIsPreorder()
    ensures TotalPreorder(NewestFirst)
  {}

  lemma {:induction false} InsertKeepsDistinctIds(x: EventRecord, rs: seq<EventRecord>)
    requires DistinctIds(rs) && forall r :: r in rs ==> Id(r) != Id(x)
    ensures DistinctIds(Insert(NewestFirst, x, rs))
  {
    if rs != [] && !NewestFirst(x, rs[0]) {
      InsertKeepsDistinctIds(x, rs[1..]);
      InsertMultiset(NewestFirst, x, rs[1..]);
      var r := Insert(NewestFirst, x, rs[1..]);
      forall i | 0 <= i < |r| ensures Id(r[i]) != Id(rs[0]) {
        assert r[i] in multiset(r);
        assert r[i] == x || r[i] in rs[1..];
      }
    }
  }

  lemma {:induction false} SortKeepsDistinctIds(rs: seq<EventRecord>)
    requires DistinctIds(rs)
    ensures DistinctIds(Sort(NewestFirst, rs))
  {
    if rs != [] {
      SortKeepsDistinctIds(rs[1..]);
      SortMultiset(NewestFirst, rs[1..]);
      SameMembers(rs[1..], Sort(NewestFirst, rs[1..]));
      InsertKeepsDistinctIds(rs[0], Sort(NewestFirst, rs[1..]));
    }
  }

  /** The retained events in page order: strictly descending, each exactly once. */
  lemma SortedIsDescending(rs: seq<EventRecord>)
    requires DistinctIds(rs)
    ensures Descending(Sort(NewestFirst, rs)) && multiset(Sort(NewestFirst, rs)) == multiset(rs)
  {
    NewestFirstIsPreorder();
    SortSorted(NewestFirst, rs);
    SortMultiset(NewestFirst, rs);
    SortKeepsDistinctIds(rs);
    var l := Sort(NewestFirst, rs);
    forall i, j | 0 <= i < j < |l| ensures Older(l[j], At(l[i]), Id(l[i])) {
      assert NewestFirst(l[i], l[j]) && Id(l[i]) != Id(l[j]);
    }
  }

  /** The events older than the last one of a page are the rest of the list. */
  lemma {:induction false} OlderThanIsSuffix(rs: seq<EventRecord>, i: nat)
    requires Descending(rs) && 0 < i <= |rs|
    ensures OlderThan(rs, At(rs[i - 1]), Id(rs[i - 1])) == rs[i..]
  {
    var at, id := At(rs[i - 1]), Id(rs[i - 1]);
    assert !Older(rs[0], at, id) by {
      if i > 1 { assert Older(rs[i - 1], At(rs[0]), Id(rs[0])); }
    }
    if i == 1 {
      AllOlder(rs[1..], at, id);
    } else {
      OlderThanIsSuffix(rs[1..], i - 1);
    }
  }

  lemma {:induction false} AllOlder(rs: seq<EventRecord>, at: Time, id: Uuid)
    requires forall r :: r in rs ==> Older(r, at, id)
    ensures OlderThan(rs, at, id) == rs
  {
    if rs != [] { AllOlder(rs[1..], at, id); }
  }

  // ---------- one page ----------

  function PositionAt(revision: nat, l: seq<EventRecord>, i: nat): Option<Cursor>
    requires i <= |l|
  {
    if i == 0 then None else Some(Cursor(revision, At(l[i - 1]), Id(l[i - 1])))
  }

  function Until(l: seq<EventRecord>, i: nat, limit: nat): nat {
    if i + limit < |l| then i + limit else |l|
  }

  /** The cursor at position `i` leaves exactly the events from `i` on. */
  lemma EligibleAt(revision: nat, recent: seq<EventRecord>, i: nat)
    requires DistinctIds(recent) && i <= |Sort(NewestFirst, recent)|
    ensures var l := Sort(NewestFirst, recent);
            var c := PositionAt(revision, l, i);
            && (c.Some? ==> c.value.revision == revision)
            && (if c.Some? then OlderThan(l, c.value.occurredAt, c.value.eventId) else l) == l[i..]
  {
    hide Sort, OlderThan, NewestFirst, Descending;
    SortedIsDescending(recent);
    if i > 0 { OlderThanIsSuffix(Sort(NewestFirst, recent), i); }
  }

  /** What a page says about the position `i` behind which it starts. */
  ghost predicate PageFrom(range: SecondsRange, revision: nat, recent: seq<EventRecord>, limit: nat, i: nat, r: PageResult)
  {
    var l := Sort(NewestFirst, recent);
    var j := Until(l, i, limit);
    && i <= j <= |l| == |recent|
    && r.Served? && r.page.events == l[i..j]
    && r.page.skipped == i && r.page.returned == j - i && r.page.remaining == |l| - j
    && r.page.skipped + r.page.returned + r.page.remaining == r.page.total == |recent|
    && EventsFit(range, l)
    && (if j == |l| then r.page.next == None
        else j > 0 && EventsFit(range, [l[j - 1]]) && r.page.next == Some(CursorFor(range, revision, l[j - 1])))
  }

  lemma PageIsFrom(range: SecondsRange, revision: nat, recent: seq<EventRecord>, limit: nat, cursor: Option<Cursor>, i: nat)
    requires EventsFit(range, recent) && 0 < limit <= MAX_LIMIT && i <= |Sort(NewestFirst, recent)|
    requires cursor.Some? ==> cursor.value.revision == revision
    requires var l := Sort(NewestFirst, recent);
             (if cursor.Some? then OlderThan(l, cursor.value.occurredAt, cursor.value.eventId) else l) == l[i..]
    ensures PageFrom(range, revision, recent, limit, i, BuildPage(range, revision, recent, limit, cursor))
  {
    hide Sort, OlderThan, NewestFirst, EventsFit, CursorFor;
    var l := Sort(NewestFirst, recent);
    SortMultiset(NewestFirst, recent);
    SortedFit(range, recent, l, l, None);
    CutAt(l, i, limit);
  }

  lemma CutAt<T>(l: seq<T>, i: nat, limit: nat)
    requires i <= |l| && 0 < limit
    ensures |l[i..]| == |l| - i
    ensures i + limit < |l| ==> l[i..][..limit] == l[i..i + limit] && l[i..i + limit][limit - 1] == l[i + limit - 1]
    ensures i + limit >= |l| ==> l[i..|l|] == l[i..]
  {}

  /** The page that starts at position `i` holds the next `limit` events, counts what is
      before and after it, and points behind its last event while events remain. */
  lemma PageAtPosition(range: SecondsRange, revision: nat, recent: seq<EventRecord>, i: nat, limit: nat)
    requires EventsFit(range, recent) && DistinctIds(recent) && 0 < limit <= MAX_LIMIT
    requires i <= |Sort(NewestFirst, recent)|
    ensures var c := PositionAt(revision, Sort(NewestFirst, recent), i);
            PageFrom(range, revision, recent, limit, i, BuildPage(range, revision, recent, limit, c))
  {
    hide Sort, DistinctIds, OlderThan, EventsFit, PageFrom, BuildPage;
    EligibleAt(revision, recent, i);
    PageIsFrom(range, revision, recent, limit, PositionAt(revision, Sort(NewestFirst, recent), i), i);
  }

  /** Any instant and id, whether of an event or not, cut a descending list in two. */
  lemma {:induction false} AnyCursorCuts(rs: seq<EventRecord>, at: Time, id: Uuid) returns (i: nat)
    requires Descending(rs)
    ensures i <= |rs| && OlderThan(rs, at, id) == rs[i..]
    ensures forall k :: 0 <= k < |rs| ==> (Older(rs[k], at, id) <==> i <= k)
  {
    i := 0;
    if rs != [] {
      if Older(rs[0], at, id) {
        AllOlder(rs, at, id);
      } else {
        var n := AnyCursorCuts(rs[1..], at, id);
        i := n + 1;
        assert rs[1..][n..] == rs[i..];
      }
    }
  }

  /** Whatever cursor of the current revision a client sends, its page holds the first events
      of the timeline that are older than the cursor, and the counts add up to the total. */
  lemma PageOfAnyCursor(range: SecondsRange, revision: nat, recent: seq<EventRecord>, limit: nat, c: Cursor) returns (i: nat)
    requires EventsFit(range, recent) && DistinctIds(recent) && 0 < limit <= MAX_LIMIT && c.revision == revision
    ensures PageFrom(range, revision, recent, limit, i, BuildPage(range, revision, recent, limit, Some(c)))
    ensures var l := Sort(NewestFirst, recent);
            forall k :: 0 <= k < |l| ==> (Older(l[k], c.occurredAt, c.eventId) <==> i <= k)
  {
    hide Sort, OlderThan, NewestFirst, EventsFit, PageFrom, BuildPage;
    SortedIsDescending(recent);
    i := AnyCursorCuts(Sort(NewestFirst, recent), c.occurredAt, c.eventId);
    PageIsFrom(range, revision, recent, limit, Some(c), i);
  }

  // ---------- a client that follows the cursors ----------

  function Recent(s: State): seq<EventRecord>
    requires Structure(s)
  {
    RecentEvents(s)
  }

  ghost predicate StoreFits(range: SecondsRange, s: State) {
    Structure(s) && EventsFit(range, Recent(s)) && s.revision < U64_MAX
  }

  /** One request: the cursor text is parsed, then the page is built from a snapshot. */
  function Fetch(range: SecondsRange, s: State, limit: nat, text: Option<string>): PageResult
    requires Structure(s) && EventsFit(range, Recent(s))
  {
    match text
    case None => BuildPage(range, s.revision, Recent(s), limit, None)
    case Some(t) =>
      match Parse(range, t)
      case Err => Refused(InvalidCursor)
      case Ok(c) => BuildPage(range, s.revision, Recent(s), limit, Some(c))
  }

  lemma EventIdsAreDistinct(s: State)
    requires Structure(s)
    ensures DistinctIds(Recent(s))
  {}

  /** The timeline of a state, in page order. */
  function TimelineOf(s: State): seq<EventRecord>
    requires Structure(s)
  {
    Sort(NewestFirst, Recent(s))
  }

  lemma TimelineFits(range: SecondsRange, s: State)
    requires StoreFits(range, s)
    ensures EventsFit(range, TimelineOf(s))
    ensures forall i :: 0 <= i < |TimelineOf(s)| ==> EventsFit(range, [TimelineOf(s)[i]])
  {
    SortedFit(range, Recent(s), TimelineOf(s), TimelineOf(s), None);
  }

  /** The cursor text behind the first `i` events. */
  function TextAt(range: SecondsRange, s: State, i: nat): Option<string>
    requires StoreFits(range, s) && i <= |TimelineOf(s)|
  {
    TimelineFits(range, s);
    if i == 0 then None else Some(CursorFor(range, s.revision, TimelineOf(s)[i - 1]))
  }

  /** The event before position `i` lies outside leap seconds, so its cursor is accepted. */
  predicate Resumable(l: seq<EventRecord>, i: nat) {
    0 < i <= |l| ==> Nanos(At(l[i - 1])) < NANOS_PER_SECOND
  }

  lemma TextParses(range: SecondsRange, s: State, i: nat)
    requires StoreFits(range, s) && 0 < i <= |TimelineOf(s)|
    ensures var c := PositionAt(s.revision, TimelineOf(s), i).value;
            TextAt(range, s, i).Some?
            && Parse(range, TextAt(range, s, i).value) == if Resumable(TimelineOf(s), i) then Ok(c) else Err
  {
    var l := TimelineOf(s);
    hide Structure, Encode, Parse, Sort;
    TimelineFits(range, s);
    assert EventsFit(range, [l[i - 1]]) && l[i - 1] in [l[i - 1]];
    ParseUndoesEncode(range, Cursor(s.revision, At(l[i - 1]), Id(l[i - 1])));
  }

  /** A request at position `i` is served exactly when the event before it lies outside
      leap seconds; the page is then the next stretch of the timeline. */
  lemma FetchAtPosition(range: SecondsRange, s: State, i: nat, limit: nat)
    requires StoreFits(range, s) && i <= |TimelineOf(s)| && 0 < limit <= MAX_LIMIT
    ensures var l := TimelineOf(s);
            var r := Fetch(range, s, limit, TextAt(range, s, i));
            var j := Until(l, i, limit);
            if !Resumable(l, i) then r == Refused(InvalidCursor)
            else
              && r.Served? && r.page.events == l[i..j]
              && r.page.skipped + r.page.returned + r.page.remaining == r.page.total
              && r.page.next == if j == |l| then None else TextAt(range, s, j)
  {
    EventIdsAreDistinct(s);
    hide Structure, BuildPage, CursorFor, Parse, Sort, EventsFit, NewestFirst, DistinctIds;
    PageAtPosition(range, s.revision, Recent(s), i, limit);
    if i > 0 { TextParses(range, s, i); }
  }

  /** A client's request, after whatever the store did since the previous one. */
  datatype Request = Request(ops: seq<Op>, limit: nat)

  datatype Walk = Ended(events: seq<EventRecord>) | Paused(events: seq<EventRecord>, next: Option<string>)
                | Stopped(events: seq<EventRecord>, error: PageError)

  function Prepend(events: seq<EventRecord>, w: Walk): Walk {
    match w
    case Ended(es) => Ended(events + es)
    case Paused(es, next) => Paused(events + es, next)
    case Stopped(es, error) => Stopped(events + es, error)
  }

  /** All states met on the way are well formed and their events representable. */
  ghost predicate AllFit(range: SecondsRange, s: State, requests: seq<Request>)
    decreases |requests|
  {
    StoreFits(range, s) &&
    (requests != [] ==> AllFit(range, Run(s, requests[0].ops), requests[1..]))
  }

  /** Follow `next` from page to page while the store keeps running. */
  function Follow(range: SecondsRange, s: State, requests: seq<Request>, text: Option<string>): Walk
    requires AllFit(range, s, requests)
    decreases |requests|
  {
    if requests == [] then Paused([], text)
    else
      var s1 := Run(s, requests[0].ops);
      assert AllFit(range, s1, requests[1..]);
      match Fetch(range, s1, requests[0].limit, text)
      case Refused(error) => Stopped([], error)
      case Served(page) =>
        if page.next == None then Ended(page.events)
        else Prepend(page.events, Follow(range, s1, requests[1..], page.next))
  }

  /** Nothing is accepted between the requests. */
  ghost predicate Quiet(s: State, requests: seq<Request>)
    decreases |requests|
  {
    requests != [] ==>
      Run(s, requests[0].ops).revision == s.revision && Quiet(Run(s, requests[0].ops), requests[1..])
  }

  predicate LimitsValid(requests: seq<Request>) {
    forall r :: r in requests ==> 0 < r.limit <= MAX_LIMIT
  }

  /** Every request on the way starts behind an event outside leap seconds. */
  predicate AllResumable(l: seq<EventRecord>, i: nat, requests: seq<Request>)
    decreases |requests|
  {
    requests != [] ==>
      && Resumable(l, i)
      && (i + requests[0].limit < |l| ==> AllResumable(l, i + requests[0].limit, requests[1..]))
  }

  function Reached(l: seq<EventRecord>, i: nat, requests: seq<Request>): (j: nat)
    requires i <= |l|
    ensures i <= j <= |l|
    decreases |requests|
  {
    if requests == [] then i
    else if i + requests[0].limit < |l| then Reached(l, i + requests[0].limit, requests[1..])
    else |l|
  }

  lemma QuietKeepsTimeline(range: SecondsRange, s: State, s1: State, ops: seq<Op>)
    requires StoreFits(range, s) && StoreFits(range, s1) && s1 == Run(s, ops) && s1.revision == s.revision
    ensures TimelineOf(s1) == TimelineOf(s) && Recent(s1) == Recent(s)
    ensures forall i: nat :: i <= |TimelineOf(s)| ==> TextAt(range, s1, i) == TextAt(range, s, i)
  {
    EqualRevisionMeansEqualProjections(s, ops);
    TimelineFits(range, s);
  }

  lemma FollowOnce(range: SecondsRange, s: State, requests: seq<Request>, i: nat)
    requires requests != [] && AllFit(range, s, requests) && LimitsValid(requests)
    requires StoreFits(range, s) && i <= |TimelineOf(s)|
    requires Run(s, requests[0].ops).revision == s.revision
    ensures var l := TimelineOf(s);
            var w := Follow(range, s, requests, TextAt(range, s, i));
            var j := Until(l, i, requests[0].limit);
            var s1 := Run(s, requests[0].ops);
            && StoreFits(range, s1) && AllFit(range, s1, requests[1..]) && LimitsValid(requests[1..])
            && TimelineOf(s1) == l
            && (forall k: nat :: k <= |l| ==> TextAt(range, s1, k) == TextAt(range, s, k))
            && if !Resumable(l, i) then w == Stopped([], InvalidCursor)
               else if j == |l| then w == Ended(l[i..])
               else w == Prepend(l[i..j], Follow(range, s1, requests[1..], TextAt(range, s1, j)))
  {
    var s1, limit := Run(s, requests[0].ops), requests[0].limit;
    assert requests[0] in requests && AllFit(range, s1, requests[1..]) && StoreFits(range, s1);
    QuietKeepsTimeline(range, s, s1, requests[0].ops);
    FetchAtPosition(range, s1, i, limit);
    hide StoreFits, Fetch, TextAt, TimelineOf, Run, Resumable;
    var l := TimelineOf(s);
    assert l[i..|l|] == l[i..];
    assert forall r :: r in requests[1..] ==> r in requests;
  }

  /** `w` is the timeline from `i` on as far as the limits reach, `next` being the cursor
      there; it stops early exactly when a page ends in a leap second. */
  ghost predicate Covers(l: seq<EventRecord>, i: nat, requests: seq<Request>, w: Walk, next: Option<string>)
    requires i <= |l|
  {
    var j := Reached(l, i, requests);
    if AllResumable(l, i, requests)
    then w == if requests != [] && j == |l| then Ended(l[i..]) else Paused(l[i..j], next)
    else w.Stopped? && w.error == InvalidCursor
  }

  lemma CoverStep(l: seq<EventRecord>, i: nat, requests: seq<Request>, w: Walk, rest: Walk, next: Option<string>)
    requires requests != [] && i <= |l| && 0 < requests[0].limit
    requires var j := Until(l, i, requests[0].limit);
             if !Resumable(l, i) then w == Stopped([], InvalidCursor)
             else if j == |l| then w == Ended(l[i..])
             else w == Prepend(l[i..j], rest) && Covers(l, j, requests[1..], rest, next)
    ensures Covers(l, i, requests, w, next)
  {
    hide Resumable;
    var j := Until(l, i, requests[0].limit);
    if Resumable(l, i) && j < |l| {
      var k := Reached(l, j, requests[1..]);
      assert l[i..j] + l[j..] == l[i..] && l[i..j] + l[j..k] == l[i..k];
    }
  }

  /** Where the cursors lead after the first of the requests. */
  ghost predicate RestCovered(range: SecondsRange, s: State, requests: seq<Request>, i: nat)
    requires requests != [] && StoreFits(range, s) && StoreFits(range, Run(s, requests[0].ops))
    requires i <= |TimelineOf(s)| && TimelineOf(Run(s, requests[0].ops)) == TimelineOf(s)
    requires AllFit(range, Run(s, requests[0].ops), requests[1..])
  {
    var l, s1, rest := TimelineOf(s), Run(s, requests[0].ops), requests[1..];
    var j := Until(l, i, requests[0].limit);
    Covers(l, j, rest, Follow(range, s1, rest, TextAt(range, s1, j)), TextAt(range, s1, Reached(l, j, rest)))
  }

  lemma ReachedStep(l: seq<EventRecord>, i: nat, requests: seq<Request>)
    requires requests != [] && i <= |l| && Until(l, i, requests[0].limit) < |l|
    ensures Reached(l, i, requests) == Reached(l, Until(l, i, requests[0].limit), requests[1..])
  {}

  lemma FollowStep(range: SecondsRange, s: State, requests: seq<Request>, i: nat)
    requires requests != [] && AllFit(range, s, requests) && LimitsValid(requests)
    requires StoreFits(range, s) && i <= |TimelineOf(s)|
    requires Run(s, requests[0].ops).revision == s.revision
    requires StoreFits(range, Run(s, requests[0].ops)) && TimelineOf(Run(s, requests[0].ops)) == TimelineOf(s)
    requires AllFit(range, Run(s, requests[0].ops), requests[1..])
    requires Resumable(TimelineOf(s), i) && Until(TimelineOf(s), i, requests[0].limit) < |TimelineOf(s)|
             ==> RestCovered(range, s, requests, i)
    ensures Covers(TimelineOf(s), i, requests, Follow(range, s, requests, TextAt(range, s, i)),
                   TextAt(range, s, Reached(TimelineOf(s), i, requests)))
  {
    var l, s1, rest := TimelineOf(s), Run(s, requests[0].ops), requests[1..];
    var j := Until(l, i, requests[0].limit);
    hide Follow, StoreFits, TextAt, TimelineOf, Run, Resumable, AllFit, LimitsValid, Structure, Fetch, Prepend, Covers,
      AllResumable, Reached;
    FollowOnce(range, s, requests, i);
    LimitsArePositive(requests);
    if Resumable(l, i) && j < |l| { ReachedStep(l, i, requests); }
    CoverStep(l, i, requests, Follow(range, s, requests, TextAt(range, s, i)),
              if j < |l| then Follow(range, s1, rest, TextAt(range, s1, j)) else Ended([]),
              TextAt(range, s, Reached(l, i, requests)));
  }

  /** From position `i`, following the cursors returns the timeline from `i` on, without
      gap or repetition, as far as the limits reach. */
  lemma {:induction false} FollowFromPosition(range: SecondsRange, s: State, requests: seq<Request>, i: nat)
    requires AllFit(range, s, requests) && Quiet(s, requests) && LimitsValid(requests)
    requires StoreFits(range, s) && i <= |TimelineOf(s)|
    ensures Covers(TimelineOf(s), i, requests, Follow(range, s, requests, TextAt(range, s, i)),
                   TextAt(range, s, Reached(TimelineOf(s), i, requests)))
    decreases |requests|
  {
    var l := TimelineOf(s);
    hide Follow, StoreFits, TextAt, TimelineOf, Run, Resumable, AllFit, LimitsValid, Structure, Fetch, Prepend, Covers,
      AllResumable;
    if requests == [] {
      FollowNothing(range, s, i);
    } else {
      FollowOnce(range, s, requests, i);
      var j := Until(l, i, requests[0].limit);
      if Resumable(l, i) && j < |l| {
        FollowFromPosition(range, Run(s, requests[0].ops), requests[1..], j);
      }
      FollowStep(range, s, requests, i);
    }
  }

  lemma FollowNothing(range: SecondsRange, s: State, i: nat)
    requires StoreFits(range, s) && i <= |TimelineOf(s)|
    ensures Covers(TimelineOf(s), i, [], Follow(range, s, [], TextAt(range, s, i)),
                   TextAt(range, s, Reached(TimelineOf(s), i, [])))
  {}

  lemma LimitsArePositive(requests: seq<Request>)
    requires LimitsValid(requests) && requests != []
    ensures 0 < requests[0].limit
  {}

  function TotalLimit(requests: seq<Request>): nat {
    if requests == [] then 0 else requests[0].limit + TotalLimit(requests[1..])
  }

  lemma {:induction false} ReachedIsBoundedSum(l: seq<EventRecord>, i: nat, requests: seq<Request>)
    requires i <= |l|
    ensures Reached(l, i, requests) == if i + TotalLimit(requests) < |l| then i + TotalLimit(requests) else |l|
    decreases |requests|
  {
    if requests != [] && i + requests[0].limit < |l| {
      ReachedIsBoundedSum(l, i + requests[0].limit, requests[1..]);
    }
  }

  /** Following the cursors from the first page, with any limits from 1 to 100 and any
      duplicate or rejected submissions in between, ends and returns every retained
      snapshot event exactly once, in descending (time, id) order. */
  lemma FollowingCursorsCoversTheTimeline(range: SecondsRange, s: State, requests: seq<Request>)
    requires AllFit(range, s, requests) && Quiet(s, requests) && LimitsValid(requests)
    requires StoreFits(range, s) && AllResumable(TimelineOf(s), 0, requests)
    requires requests != [] && TotalLimit(requests) >= |TimelineOf(s)|
    ensures Follow(range, s, requests, None) == Ended(TimelineOf(s))
    ensures Descending(TimelineOf(s)) && multiset(TimelineOf(s)) == multiset(Recent(s))
  {
    var l := TimelineOf(s);
    EventIdsAreDistinct(s);
    SortedIsDescending(Recent(s));
    hide AllFit, StoreFits, Follow, Descending, Sort;
    FollowFromPosition(range, s, requests, 0);
    ReachedIsBoundedSum(l, 0, requests);
    assert l[0..] == l;
  }

  /** A single event accepted between two requests makes the next one fail. */
  lemma AcceptedEventStopsPaging(range: SecondsRange, s: State, ops: seq<Op>, i: nat, limit: nat)
    requires StoreFits(range, s) && 0 < limit <= MAX_LIMIT
    requires Structure(Run(s, ops)) && EventsFit(range, Recent(Run(s, ops)))
    requires 0 < i <= |TimelineOf(s)| && Resumable(TimelineOf(s), i)
    requires AcceptedCount(s, ops) > 0
    ensures Fetch(range, Run(s, ops), limit, TextAt(range, s, i)) ==
            Refused(RevisionChanged(s.revision, Run(s, ops).revision))
  {
    hide Run, Structure, Sort, Encode, Parse, AcceptedCount;
    var r := TimelineOf(s)[i - 1];
    RevisionAfterRun(s, ops);
    TimelineFits(range, s);
    assert EventsFit(range, [r]) && r in [r];
    ParseUndoesEncode(range, Cursor(s.revision, At(r), Id(r)));
  }
}
