/** Repository-wide feedback discovery: a job lists pull requests page by page and tries to read
    the feedback of each, keeping a durable page cursor (indexPullRequestFeedback in
    internal/app/mcp_pull_request_feedback_index.go; the cursor's row in
    internal/corpus/pull_request_feedback_coverage.go). */
module FeedbackIndex {
  import opened Options
  import opened StoreCalls

  const PAGE_SIZE := 100

  datatype Issue = Issue(pullRequest: bool, number: int) {
    predicate Indexable() {
      pullRequest && number >= 1
    }
  }

  datatype ItemStatus = ItemComplete | ItemIncomplete | ItemFailed | ItemRetryable

  // ---------------------------------------------------------------------------
  // The durable cursor, and what has really been tried
  // ---------------------------------------------------------------------------

  datatype Progress = Pending | Truncated | Finished

  datatype Discovery = Discovery(generation: nat, nextPage: nat, progress: Progress, requests: nat, query: string)

  /** A page was listed, or the feedback of one pull request on it was tried. */
  datatype Event =
    | Listed(generation: nat, page: nat, items: seq<Issue>)
    | Tried(generation: nat, page: nat, number: int, status: ItemStatus)

  /** The pull request was tried on that page; with `complete`, tried to the end. */
  ghost predicate WasTried(events: seq<Event>, generation: nat, page: nat, number: int, complete: bool) {
    exists s :: Tried(generation, page, number, s) in events && (complete ==> s.ItemComplete?)
  }

  ghost predicate DoneAt(log: seq<Event>, i: int, generation: nat, page: nat, complete: bool) {
    && 0 <= i < |log| && log[i].Listed? && log[i].generation == generation && log[i].page == page
    && forall x :: x in log[i].items && x.Indexable() ==> WasTried(log[i + 1..], generation, page, x.number, complete)
  }

  /** Some listing of the page had every one of its pull requests tried afterwards. */
  ghost predicate PageDone(log: seq<Event>, generation: nat, page: nat, complete: bool) {
    exists i :: DoneAt(log, i, generation, page, complete)
  }

  ghost predicate PagesDone(log: seq<Event>, generation: nat, from: nat, before: nat, complete: bool) {
    forall p: nat :: from <= p < before ==> PageDone(log, generation, p, complete)
  }

  lemma PageStaysDone(before: seq<Event>, log: seq<Event>, after: seq<Event>, generation: nat, page: nat, complete: bool)
    requires PageDone(log, generation, page, complete)
    ensures PageDone(before + log + after, generation, page, complete)
  {
    var i :| DoneAt(log, i, generation, page, complete);
    var all, j := before + log + after, |before| + i;
    assert all[j] == log[i] && all[j + 1..] == log[i + 1..] + after;
    forall x | x in all[j].items && x.Indexable()
      ensures WasTried(all[j + 1..], generation, page, x.number, complete)
    {
      assert WasTried(log[i + 1..], generation, page, x.number, complete);
    }
    assert DoneAt(all, j, generation, page, complete);
  }

  lemma PagesStayDone(before: seq<Event>, log: seq<Event>, after: seq<Event>, generation: nat, from: nat, to: nat, complete: bool)
    requires PagesDone(log, generation, from, to, complete)
    ensures PagesDone(before + log + after, generation, from, to, complete)
  {
    forall p: nat | from <= p < to
      ensures PageDone(before + log + after, generation, p, complete)
    {
      PageStaysDone(before, log, after, generation, p, complete);
    }
  }

  /** The first page the cursor does not vouch for. */
  function Frontier(d: Discovery): nat {
    if d.progress.Finished? then d.nextPage + 1 else d.nextPage
  }

  /** The cursor tells the truth: every page before it is done, and the last one too once the
      discovery says it is finished. */
  ghost predicate Honest(d: Discovery, log: seq<Event>) {
    d.nextPage >= 1 && PagesDone(log, d.generation, 1, Frontier(d), false)
  }

  lemma StaysHonest(row: Option<Discovery>, log: seq<Event>, more: seq<Event>)
    requires row.Some? ==> Honest(row.value, log)
    ensures row.Some? ==> Honest(row.value, log + more)
  {
    if row.Some? {
      PagesStayDone([], log, more, row.value.generation, 1, Frontier(row.value), false);
      assert [] + log + more == log + more;
    }
  }

  /** The discovery table's row of one repository. */
  class Table {
    var row: Option<Discovery>
    ghost var log: seq<Event>

    constructor ()
      ensures Valid() && row.None?
    {
      row, log := None, [];
    }

    ghost predicate Valid()
      reads this
    {
      row.Some? ==> Honest(row.value, log)
    }

    /** UpsertFeedbackDiscovery; `newer` says that the wall clock has not gone back since the
        stored row was written. A cursor that is not accepted is not an error. */
    method Upsert(d: Discovery, newer: bool, landing: Landing) returns (ok: bool)
      requires Valid() && Honest(d, log)
      modifies this`row
      ensures Valid() && (ok <==> landing.Landed?)
      ensures old(row).Some? ==> row.Some? && row.value.generation >= old(row).value.generation
      ensures old(row).Some? && row.value.generation == old(row).value.generation ==> row.value.nextPage >= old(row).value.nextPage
      ensures landing.Landed? && newer && Behind(old(row), d) ==> row == Some(d)
      ensures row == if !landing.Refused? && Accepts(old(row), d, newer) then Some(d) else old(row)
    {
      if !landing.Refused? && Accepts(row, d, newer) {
        row := Some(d);
      }
      ok := landing.Landed?;
    }
  }

  predicate Accepts(row: Option<Discovery>, d: Discovery, newer: bool) {
    row.None? || d.generation > row.value.generation
    || (d.generation == row.value.generation && newer && d.nextPage >= row.value.nextPage)
  }

  // ---------------------------------------------------------------------------
  // Requests
  // ---------------------------------------------------------------------------

  class RequestBudget {
    const limit: nat
    var completed: nat

    constructor (limit: nat)
      ensures this.limit == limit && completed == 0
    {
      this.limit, completed := limit, 0;
    }

    method Take() returns (ok: bool)
      modifies this
      ensures ok <==> old(completed) < limit
      ensures completed == old(completed) + if ok then 1 else 0
    {
      ok := completed < limit;
      if ok {
        completed := completed + 1;
      }
    }
  }

  // ---------------------------------------------------------------------------
  // What a run meets, and what it does
  // ---------------------------------------------------------------------------

  datatype Listing = Listing(items: seq<Issue>, hasNext: bool, next: nat) | ListFailed(retryable: bool)

  /** What reading one pull request's feedback needs and finds; `status` is the item's status
      when the budget covers it, `short` when it does not. */
  datatype Feedback = Feedback(wants: nat, found: nat, status: ItemStatus, short: ItemStatus)

  datatype StopReason = BudgetExhausted | ProviderRetryable | DiscoveryFailed | ItemBound | PageBound

  /** GitHub, the job's progress reports, the corpus and the clock during one run: `list(k)` is its
      k-th listing, `feedback(k)` and `reported(k)` belong to its k-th item, and `counted(k)`,
      `newer(k)` and `stored(k)` to its k-th write of the cursor. `connected` and `rebuilt` stand for
      the calls before the first and after the last page. */
  datatype World = World(
    connected: bool,
    list: nat -> Listing,
    feedback: nat -> Feedback,
    reported: nat -> bool,
    counted: nat -> bool,
    newer: nat -> bool,
    stored: nat -> Landing,
    rebuilt: bool)

  datatype Bounds = Bounds(query: string, maxPullRequests: nat, maxPages: nat, maxRequests: nat) {
    predicate Valid() {
      maxPullRequests >= 1 && maxPages >= 1 && maxRequests >= 1
    }
  }

  datatype Tally = Tally(items: seq<ItemStatus>, found: nat) {
    predicate AllComplete() {
      forall i :: 0 <= i < |items| ==> items[i].ItemComplete?
    }

    predicate EndsRetryable() {
      items != [] && items[|items| - 1].ItemRetryable?
    }
  }

  const NO_ITEMS := Tally([], 0)

  datatype PageEnd = WholePage | Stopped(reason: StopReason) | Aborted

  datatype ItemsEnd = ItemsEnd(end: PageEnd, tally: Tally, completed: nat, events: seq<Event>)

  function Spent(f: Feedback, completed: nat, limit: nat): nat {
    if completed + f.wants <= limit then completed + f.wants else limit
  }

  function StatusOf(f: Feedback, completed: nat, limit: nat): ItemStatus {
    if completed + f.wants <= limit then f.status else f.short
  }

  /** The items of a listing from the j-th on. */
  ghost function RunItems(w: World, bounds: Bounds, d: Discovery, items: seq<Issue>, j: nat, t: Tally, completed: nat): ItemsEnd
    requires j <= |items|
    decreases |items| - j
  {
    if j == |items| then ItemsEnd(WholePage, t, completed, [])
    else if |t.items| >= bounds.maxPullRequests then ItemsEnd(Stopped(ItemBound), t, completed, [])
    else if !items[j].Indexable() then RunItems(w, bounds, d, items, j + 1, t, completed)
    else
      var f := w.feedback(|t.items| + 1);
      var status := StatusOf(f, completed, bounds.maxRequests);
      var spent := Spent(f, completed, bounds.maxRequests);
      var t' := Tally(t.items + [status], t.found + f.found);
      var event := Tried(d.generation, d.nextPage, items[j].number, status);
      if !w.reported(|t'.items|) then ItemsEnd(Aborted, t', spent, [event])
      else if status.ItemRetryable? then ItemsEnd(Stopped(BudgetExhausted), t', spent, [event])
      else Prepend([event], RunItems(w, bounds, d, items, j + 1, t', spent))
  }

  ghost function Prepend(events: seq<Event>, r: ItemsEnd): ItemsEnd {
    r.(events := events + r.events)
  }

  /** How one page ended: another page follows, the last one was reached, a reason to stop, no
      request left for the listing, or an error of the job. */
  datatype Turn = NextPage | LastPage | StopFor(reason: StopReason) | OutOfBudget | Fail

  datatype PageStep = PageStep(turn: Turn, cursor: Discovery, tally: Tally, completed: nat, events: seq<Event>)

  ghost function OnePage(w: World, bounds: Bounds, d: Discovery, t: Tally, k: nat, completed: nat): PageStep {
    if completed >= bounds.maxRequests then PageStep(OutOfBudget, d, t, completed, [])
    else
      match w.list(k)
      case ListFailed(retryable) =>
        PageStep(StopFor(if retryable then ProviderRetryable else DiscoveryFailed), d, t, completed + 1, [])
      case Listing(items, hasNext, next) =>
        var r := RunItems(w, bounds, d, items, 0, t, completed + 1);
        var events := [Listed(d.generation, d.nextPage, items)] + r.events;
        match r.end
        case Aborted => PageStep(Fail, d, r.tally, r.completed, events)
        case Stopped(reason) => PageStep(StopFor(reason), d, r.tally, r.completed, events)
        case WholePage =>
          if hasNext then PageStep(NextPage, d.(nextPage := next, progress := Truncated), r.tally, r.completed, events)
          else PageStep(LastPage, d.(progress := Finished), r.tally, r.completed, events)
  }

  /** Where the page loop ends. `refused` marks a listing the budget refused. */
  datatype RunEnd = RunEnd(
    failed: bool,
    cursor: Discovery,
    tally: Tally,
    stop: Option<StopReason>,
    refused: bool,
    pages: nat,
    completed: nat,
    events: seq<Event>)

  predicate WriteFails(w: World, k: nat) {
    !w.counted(k) || !w.stored(k).Landed?
  }

  ghost function RunPages(w: World, bounds: Bounds, initial: nat, d: Discovery, t: Tally, pages: nat, completed: nat): RunEnd
    decreases bounds.maxPages - pages
  {
    if |t.items| >= bounds.maxPullRequests || pages >= bounds.maxPages then
      RunEnd(false, d, t, None, false, pages, completed, [])
    else
      var s := OnePage(w, bounds, d, t, pages + 1, completed);
      if GoesOn(w, bounds, s, pages) then
        After(s.events, RunPages(w, bounds, initial, Moved(initial, s), s.tally, pages + 1, s.completed))
      else
        EndAfter(bounds, s, pages)
  }

  /** The cursor was moved and stored, and the page bound leaves room for another page. */
  predicate GoesOn(w: World, bounds: Bounds, s: PageStep, pages: nat) {
    s.turn.NextPage? && pages + 1 < bounds.maxPages && !WriteFails(w, pages + 1)
  }

  /** How a run ends with its last page. */
  function EndAfter(bounds: Bounds, s: PageStep, pages: nat): RunEnd {
    match s.turn
    case Fail => RunEnd(true, s.cursor, s.tally, None, false, pages, s.completed, s.events)
    case OutOfBudget => RunEnd(false, s.cursor, s.tally, Some(BudgetExhausted), true, pages, s.completed, s.events)
    case StopFor(reason) => RunEnd(false, s.cursor, s.tally, Some(reason), false, pages, s.completed, s.events)
    case LastPage => RunEnd(false, s.cursor, s.tally, None, false, pages + 1, s.completed, s.events)
    case NextPage =>
      if pages + 1 >= bounds.maxPages then
        RunEnd(false, s.cursor, s.tally, Some(PageBound), false, pages + 1, s.completed, s.events)
      else
        RunEnd(true, s.cursor, s.tally, None, false, pages + 1, s.completed, s.events)
  }

  ghost function After(events: seq<Event>, r: RunEnd): RunEnd {
    r.(events := events + r.events)
  }

  /** A run resumes an unfinished discovery of the same query and otherwise starts a new
      generation. */
  function Start(row: Option<Discovery>, query: string): Discovery {
    if row.None? then Discovery(1, 1, Pending, 0, query)
    else if row.value.progress.Finished? || row.value.query != query then
      Discovery(row.value.generation + 1, 1, Pending, 0, query)
    else row.value.(nextPage := if row.value.nextPage < 1 then 1 else row.value.nextPage)
  }

  ghost function RunFrom(w: World, bounds: Bounds, start: Discovery): RunEnd {
    RunPages(w, bounds, start.requests, start, NO_ITEMS, 0, 0)
  }

  datatype Result = Result(complete: bool, cursor: Discovery, tally: Tally, requests: nat, stop: Option<StopReason>)

  /** Failed is an error return; it can leave any of the run's writes behind. */
  datatype Outcome = Reported(result: Result) | Failed

  function CursorOf(start: Discovery, r: RunEnd): Discovery {
    r.cursor.(progress := if r.stop.Some? then Truncated else r.cursor.progress, requests := start.requests + r.completed)
  }

  ghost function ResultOf(start: Discovery, r: RunEnd): Result {
    Result(r.stop.None? && CursorOf(start, r).progress.Finished? && r.tally.AllComplete(),
           CursorOf(start, r), r.tally, r.completed, r.stop)
  }

  ghost function OutcomeOf(w: World, bounds: Bounds, start: Discovery): Outcome {
    var r := RunFrom(w, bounds, start);
    if !w.connected || r.failed || WriteFails(w, r.pages + 1) || !w.rebuilt then Failed else Reported(ResultOf(start, r))
  }

  // ---------------------------------------------------------------------------
  // What holds of the items of a page
  // ---------------------------------------------------------------------------

  function Indexables(items: seq<Issue>, j: nat): nat
    requires j <= |items|
    decreases |items| - j
  {
    if j == |items| then 0 else Indexables(items, j + 1) + if items[j].Indexable() then 1 else 0
  }

  lemma {:induction false} IndexablesBound(items: seq<Issue>, j: nat)
    requires j <= |items|
    ensures Indexables(items, j) <= |items| - j
    decreases |items| - j
  {
    if j < |items| {
      IndexablesBound(items, j + 1);
    }
  }

  /** The items from the j-th on, the last one aside, leave some of the room: then the item bound
      is not met before the end of the listing. */
  predicate FitsFrom(items: seq<Issue>, j: nat, room: int)
    requires j <= |items|
    decreases |items| - j
  {
    j == |items| || (room > 0 && FitsFrom(items, j + 1, if items[j].Indexable() then room - 1 else room))
  }

  predicate Fits(items: seq<Issue>, room: nat) {
    FitsFrom(items, 0, room)
  }

  /** The bound is met early exactly when the listing but for its last item uses it up. */
  lemma {:induction false} FitsIff(items: seq<Issue>, j: nat, room: int)
    requires j <= |items|
    ensures FitsFrom(items, j, room) <==>
            j == |items| || Indexables(items, j) - (if items[|items| - 1].Indexable() then 1 else 0) < room
    decreases |items| - j
  {
    if j < |items| {
      FitsIff(items, j + 1, if items[j].Indexable() then room - 1 else room);
      IndexablesNonLast(items, j);
    }
  }

  lemma {:induction false} IndexablesNonLast(items: seq<Issue>, j: nat)
    requires j < |items|
    ensures Indexables(items, j) >= if items[|items| - 1].Indexable() then 1 else 0
    decreases |items| - j
  {
    if j + 1 < |items| {
      IndexablesNonLast(items, j + 1);
    }
  }

  /** Counts, bounds and the reason of every end. */
  lemma {:induction false} ItemsFacts(w: World, bounds: Bounds, d: Discovery, items: seq<Issue>, j: nat, t: Tally, completed: nat)
    requires j <= |items| && |t.items| <= bounds.maxPullRequests && completed <= bounds.maxRequests
    requires !t.EndsRetryable()
    ensures var r := RunItems(w, bounds, d, items, j, t, completed);
            && completed <= r.completed <= bounds.maxRequests
            && t.items <= r.tally.items && |r.tally.items| <= bounds.maxPullRequests
            && (r.end.WholePage? <==> !r.end.Stopped? && !r.end.Aborted?)
            && (r.end.WholePage? ==> FitsFrom(items, j, bounds.maxPullRequests - |t.items|) && !r.tally.EndsRetryable())
            && (r.end == Stopped(ItemBound) ==>
                  && |r.tally.items| == bounds.maxPullRequests && !r.tally.EndsRetryable()
                  && !FitsFrom(items, j, bounds.maxPullRequests - |t.items|))
            && (r.end.Stopped? ==> r.end.reason.ItemBound? || (r.end.reason.BudgetExhausted? && r.tally.EndsRetryable()))
            && (r.end.Aborted? ==> exists k :: !w.reported(k))
    decreases |items| - j
  {
    if j < |items| && |t.items| < bounds.maxPullRequests {
      if !items[j].Indexable() {
        ItemsFacts(w, bounds, d, items, j + 1, t, completed);
      } else {
        var f := w.feedback(|t.items| + 1);
        var status := StatusOf(f, completed, bounds.maxRequests);
        var t' := Tally(t.items + [status], t.found + f.found);
        if w.reported(|t'.items|) && !status.ItemRetryable? {
          ItemsFacts(w, bounds, d, items, j + 1, t', Spent(f, completed, bounds.maxRequests));
        }
      }
    }
  }

  /** Every event is an attempt on this page, and a whole page has every pull request tried; when
      every item so far is complete, tried to the end. */
  lemma {:induction false} ItemsTried(w: World, bounds: Bounds, d: Discovery, items: seq<Issue>, j: nat, t: Tally, completed: nat)
    requires j <= |items|
    ensures var r := RunItems(w, bounds, d, items, j, t, completed);
            && t.items <= r.tally.items
            && (forall e :: e in r.events ==> e.Tried? && e.generation == d.generation && e.page == d.nextPage)
            && (r.end.WholePage? ==>
                  forall k :: j <= k < |items| && items[k].Indexable() ==>
                    WasTried(r.events, d.generation, d.nextPage, items[k].number, r.tally.AllComplete()))
    decreases |items| - j
  {
    if j < |items| && |t.items| < bounds.maxPullRequests {
      if !items[j].Indexable() {
        ItemsTried(w, bounds, d, items, j + 1, t, completed);
      } else {
        var f := w.feedback(|t.items| + 1);
        var status := StatusOf(f, completed, bounds.maxRequests);
        var t' := Tally(t.items + [status], t.found + f.found);
        if w.reported(|t'.items|) && !status.ItemRetryable? {
          ItemsTried(w, bounds, d, items, j + 1, t', Spent(f, completed, bounds.maxRequests));
          TriedOneMore(w, bounds, d, items, j, t', completed, status, f);
        }
      }
    }
  }

  lemma TriedOneMore(w: World, bounds: Bounds, d: Discovery, items: seq<Issue>, j: nat, t': Tally, completed: nat,
                     status: ItemStatus, f: Feedback)
    requires j < |items| && t'.items != [] && t'.items[|t'.items| - 1] == status
    requires var rest := RunItems(w, bounds, d, items, j + 1, t', Spent(f, completed, bounds.maxRequests));
             t'.items <= rest.tally.items &&
             (rest.end.WholePage? ==>
                forall k :: j + 1 <= k < |items| && items[k].Indexable() ==>
                  WasTried(rest.events, d.generation, d.nextPage, items[k].number, rest.tally.AllComplete()))
    ensures var rest := RunItems(w, bounds, d, items, j + 1, t', Spent(f, completed, bounds.maxRequests));
            var events := [Tried(d.generation, d.nextPage, items[j].number, status)] + rest.events;
            rest.end.WholePage? ==>
              forall k :: j <= k < |items| && items[k].Indexable() ==>
                WasTried(events, d.generation, d.nextPage, items[k].number, rest.tally.AllComplete())
  {
    var rest := RunItems(w, bounds, d, items, j + 1, t', Spent(f, completed, bounds.maxRequests));
    var event := Tried(d.generation, d.nextPage, items[j].number, status);
    var events := [event] + rest.events;
    if rest.end.WholePage? {
      assert rest.tally.AllComplete() ==> rest.tally.items[|t'.items| - 1] == status && status.ItemComplete?;
      forall k | j <= k < |items| && items[k].Indexable()
        ensures WasTried(events, d.generation, d.nextPage, items[k].number, rest.tally.AllComplete())
      {
        if k == j {
          assert event in events;
        } else {
          var s :| Tried(d.generation, d.nextPage, items[k].number, s) in rest.events
                   && (rest.tally.AllComplete() ==> s.ItemComplete?);
          assert Tried(d.generation, d.nextPage, items[k].number, s) in events;
        }
      }
    }
  }

  // ---------------------------------------------------------------------------
  // What holds of a page
  // ---------------------------------------------------------------------------

  ghost predicate ListsFitting(w: World, bounds: Bounds, t: Tally, k: nat)
    requires |t.items| <= bounds.maxPullRequests
  {
    w.list(k).Listing? && Fits(w.list(k).items, bounds.maxPullRequests - |t.items|)
  }

  lemma PageFacts(w: World, bounds: Bounds, d: Discovery, t: Tally, k: nat, completed: nat)
    requires |t.items| <= bounds.maxPullRequests && completed <= bounds.maxRequests && !t.EndsRetryable()
    ensures var s := OnePage(w, bounds, d, t, k, completed);
            && completed <= s.completed <= bounds.maxRequests
            && t.items <= s.tally.items && |s.tally.items| <= bounds.maxPullRequests
            && match s.turn
               case NextPage =>
                 ListsFitting(w, bounds, t, k) && !s.tally.EndsRetryable() && w.list(k).hasNext
                 && s.cursor == d.(nextPage := w.list(k).next, progress := Truncated)
               case LastPage =>
                 ListsFitting(w, bounds, t, k) && !s.tally.EndsRetryable() && s.cursor == d.(progress := Finished)
               case OutOfBudget => s.completed == bounds.maxRequests && s.tally == t && s.cursor == d
               case Fail => s.cursor == d && exists k :: !w.reported(k)
               case StopFor(reason) =>
                 && s.cursor == d
                 && match reason
                    case ItemBound =>
                      |s.tally.items| == bounds.maxPullRequests && !s.tally.EndsRetryable()
                      && w.list(k).Listing? && !ListsFitting(w, bounds, t, k)
                    case BudgetExhausted => s.tally.EndsRetryable()
                    case ProviderRetryable => w.list(k) == ListFailed(true) && s.tally == t
                    case DiscoveryFailed => w.list(k) == ListFailed(false) && s.tally == t
                    case PageBound => false
  {
    if completed < bounds.maxRequests && w.list(k).Listing? {
      ItemsFacts(w, bounds, d, w.list(k).items, 0, t, completed + 1);
    }
  }

  ghost predicate EventsIn(events: seq<Event>, generation: nat, from: nat, to: nat) {
    forall e :: e in events ==> e.generation == generation && from <= e.page <= to
  }

  /** A page that is passed is done, and done to the end when every item so far is complete. */
  lemma PageEvents(w: World, bounds: Bounds, d: Discovery, t: Tally, k: nat, completed: nat)
    ensures var s := OnePage(w, bounds, d, t, k, completed);
            && EventsIn(s.events, d.generation, d.nextPage, d.nextPage)
            && (s.turn.NextPage? || s.turn.LastPage? ==>
                  && PageDone(s.events, d.generation, d.nextPage, false)
                  && PageDone(s.events, d.generation, d.nextPage, s.tally.AllComplete()))
  {
    var s := OnePage(w, bounds, d, t, k, completed);
    if completed < bounds.maxRequests && w.list(k).Listing? {
      var items := w.list(k).items;
      ItemsTried(w, bounds, d, items, 0, t, completed + 1);
      var r := RunItems(w, bounds, d, items, 0, t, completed + 1);
      assert s.events[1..] == r.events;
      if r.end.WholePage? {
        forall x | x in items && x.Indexable()
          ensures WasTried(r.events, d.generation, d.nextPage, x.number, s.tally.AllComplete())
          ensures WasTried(r.events, d.generation, d.nextPage, x.number, false)
        {
          var i :| 0 <= i < |items| && items[i] == x;
          assert WasTried(r.events, d.generation, d.nextPage, items[i].number, r.tally.AllComplete());
        }
        assert DoneAt(s.events, 0, d.generation, d.nextPage, false);
        assert DoneAt(s.events, 0, d.generation, d.nextPage, s.tally.AllComplete());
      }
    }
  }

  // ---------------------------------------------------------------------------
  // What holds of a run
  // ---------------------------------------------------------------------------

  /** The provider names the successor as the next page; `first` is the run's first page. */
  ghost predicate WellPaged(w: World, first: nat) {
    forall k: nat :: k >= 1 && w.list(k).Listing? && w.list(k).hasNext ==> w.list(k).next == first + k
  }

  /** The page loop is about to list the page after `pages` others. */
  ghost predicate AtPage(w: World, bounds: Bounds, first: nat, d: Discovery, t: Tally, pages: nat, completed: nat) {
    && bounds.Valid() && WellPaged(w, first) && d.nextPage == first + pages && !d.progress.Finished?
    && |t.items| <= bounds.maxPullRequests && completed <= bounds.maxRequests && !t.EndsRetryable()
    && (pages < bounds.maxPages || |t.items| == bounds.maxPullRequests) && pages <= bounds.maxPages
  }

  /** Every way to stop has its cause, and an exhausted budget is reported exactly for a refused
      listing or an item that could be retried. */
  ghost predicate Reasoned(w: World, bounds: Bounds, r: RunEnd) {
    && (r.stop == Some(BudgetExhausted) <==> r.refused || r.tally.EndsRetryable())
    && (r.refused ==> r.completed == bounds.maxRequests)
    && match r.stop
       case None => r.cursor.progress.Finished? || |r.tally.items| == bounds.maxPullRequests
       case Some(ItemBound) => |r.tally.items| == bounds.maxPullRequests
       case Some(PageBound) => r.pages == bounds.maxPages
       case Some(BudgetExhausted) => true
       case Some(ProviderRetryable) => w.list(r.pages + 1) == ListFailed(true)
       case Some(DiscoveryFailed) => w.list(r.pages + 1) == ListFailed(false)
  }

  /** Only a failed report, count or write makes a run fail between its first and last page. */
  ghost predicate CallFailed(w: World) {
    (exists k :: !w.reported(k)) || exists k :: WriteFails(w, k)
  }

  ghost predicate InRange(bounds: Bounds, d: Discovery, t: Tally, pages: nat, completed: nat, r: RunEnd) {
    && completed <= r.completed <= bounds.maxRequests
    && t.items <= r.tally.items && |r.tally.items| <= bounds.maxPullRequests
    && r.cursor.generation == d.generation && r.cursor.query == d.query
    && d.nextPage <= r.cursor.nextPage <= d.nextPage + (bounds.maxPages - pages)
    && (r.cursor.progress.Finished? ==> r.stop.None? && !r.failed)
    && pages <= r.pages <= bounds.maxPages
  }

  function Moved(initial: nat, s: PageStep): Discovery {
    s.cursor.(requests := initial + s.completed)
  }

  /** What carries over to the next page. */
  lemma NextAtPage(w: World, bounds: Bounds, initial: nat, first: nat, d: Discovery, t: Tally, pages: nat, completed: nat)
    requires AtPage(w, bounds, first, d, t, pages, completed) && |t.items| < bounds.maxPullRequests
    ensures var s := OnePage(w, bounds, d, t, pages + 1, completed);
            GoesOn(w, bounds, s, pages) ==>
              && AtPage(w, bounds, first, Moved(initial, s), s.tally, pages + 1, s.completed)
              && completed <= s.completed && t.items <= s.tally.items
              && Moved(initial, s).generation == d.generation && Moved(initial, s).query == d.query
              && Moved(initial, s).nextPage == d.nextPage + 1
  {
    PageFacts(w, bounds, d, t, pages + 1, completed);
  }

  lemma EndFacts(w: World, bounds: Bounds, first: nat, d: Discovery, t: Tally, pages: nat, completed: nat)
    requires AtPage(w, bounds, first, d, t, pages, completed) && |t.items| < bounds.maxPullRequests
    ensures var s := OnePage(w, bounds, d, t, pages + 1, completed);
            !GoesOn(w, bounds, s, pages) ==>
              var r := EndAfter(bounds, s, pages);
              InRange(bounds, d, t, pages, completed, r) && (if r.failed then CallFailed(w) else Reasoned(w, bounds, r))
  {
    PageFacts(w, bounds, d, t, pages + 1, completed);
  }

  lemma EndEvents(w: World, bounds: Bounds, first: nat, d: Discovery, t: Tally, pages: nat, completed: nat)
    requires AtPage(w, bounds, first, d, t, pages, completed) && |t.items| < bounds.maxPullRequests
    ensures var s := OnePage(w, bounds, d, t, pages + 1, completed);
            !GoesOn(w, bounds, s, pages) ==> PassedBy(d, t, EndAfter(bounds, s, pages))
  {
    PageFacts(w, bounds, d, t, pages + 1, completed);
    PageEvents(w, bounds, d, t, pages + 1, completed);
  }

  /** The pages a run passes: from its first to before the frontier it ends with. All of them are
      done, and done to the end when every item of the run is complete; the run touched no page
      outside. */
  ghost predicate PassedBy(d: Discovery, t: Tally, r: RunEnd) {
    && t.items <= r.tally.items && d.nextPage <= r.cursor.nextPage && r.cursor.generation == d.generation
    && EventsIn(r.events, d.generation, d.nextPage, r.cursor.nextPage)
    && PagesDone(r.events, d.generation, d.nextPage, Frontier(r.cursor), false)
    && PagesDone(r.events, d.generation, d.nextPage, Frontier(r.cursor), r.tally.AllComplete())
  }

  lemma {:induction false} RunFacts(w: World, bounds: Bounds, initial: nat, first: nat, d: Discovery, t: Tally, pages: nat, completed: nat)
    requires AtPage(w, bounds, first, d, t, pages, completed)
    ensures var r := RunPages(w, bounds, initial, d, t, pages, completed);
            InRange(bounds, d, t, pages, completed, r) && (if r.failed then CallFailed(w) else Reasoned(w, bounds, r))
    decreases bounds.maxPages - pages
  {
    if |t.items| < bounds.maxPullRequests && pages < bounds.maxPages {
      NextAtPage(w, bounds, initial, first, d, t, pages, completed);
      EndFacts(w, bounds, first, d, t, pages, completed);
      var s := OnePage(w, bounds, d, t, pages + 1, completed);
      if GoesOn(w, bounds, s, pages) {
        RunFacts(w, bounds, initial, first, Moved(initial, s), s.tally, pages + 1, s.completed);
      }
    }
  }

  lemma {:induction false} RunEvents(w: World, bounds: Bounds, initial: nat, first: nat, d: Discovery, t: Tally, pages: nat, completed: nat)
    requires AtPage(w, bounds, first, d, t, pages, completed)
    ensures PassedBy(d, t, RunPages(w, bounds, initial, d, t, pages, completed))
    decreases bounds.maxPages - pages
  {
    if |t.items| < bounds.maxPullRequests && pages < bounds.maxPages {
      NextAtPage(w, bounds, initial, first, d, t, pages, completed);
      PageEvents(w, bounds, d, t, pages + 1, completed);
      EndEvents(w, bounds, first, d, t, pages, completed);
      var s := OnePage(w, bounds, d, t, pages + 1, completed);
      if GoesOn(w, bounds, s, pages) {
        var d' := Moved(initial, s);
        RunEvents(w, bounds, initial, first, d', s.tally, pages + 1, s.completed);
        LaterPages(d, d', t, s, RunPages(w, bounds, initial, d', s.tally, pages + 1, s.completed));
      }
    }
  }

  lemma LaterPages(d: Discovery, d': Discovery, t: Tally, s: PageStep, rest: RunEnd)
    requires s.turn.NextPage? && d'.nextPage == d.nextPage + 1 && d'.generation == d.generation
    requires t.items <= s.tally.items && PassedBy(d', s.tally, rest)
    requires EventsIn(s.events, d.generation, d.nextPage, d.nextPage)
    requires PageDone(s.events, d.generation, d.nextPage, false)
    requires PageDone(s.events, d.generation, d.nextPage, s.tally.AllComplete())
    ensures PassedBy(d, t, After(s.events, rest))
  {
    var events := s.events + rest.events;
    assert s.events + rest.events + [] == events && [] + s.events + rest.events == events;
    assert rest.tally.AllComplete() ==> s.tally.AllComplete();
    assert PageDone(s.events, d.generation, d.nextPage, rest.tally.AllComplete());
    PageStaysDone([], s.events, rest.events, d.generation, d.nextPage, false);
    PageStaysDone([], s.events, rest.events, d.generation, d.nextPage, rest.tally.AllComplete());
    PagesStayDone(s.events, rest.events, [], d.generation, d.nextPage + 1, Frontier(rest.cursor), false);
    PagesStayDone(s.events, rest.events, [], d.generation, d.nextPage + 1, Frontier(rest.cursor), rest.tally.AllComplete());
  }

  /** An honest cursor stays honest over the pages a run passes. */
  lemma HonestAfter(d: Discovery, cursor: Discovery, log: seq<Event>, events: seq<Event>)
    requires Honest(d, log) && !d.progress.Finished? && d.nextPage <= cursor.nextPage && cursor.generation == d.generation
    requires PagesDone(events, d.generation, d.nextPage, Frontier(cursor), false)
    ensures Honest(cursor, log + events)
  {
    assert [] + log + events == log + events && log + events + [] == log + events;
    PagesStayDone([], log, events, d.generation, 1, d.nextPage, false);
    PagesStayDone(log, events, [], d.generation, d.nextPage, Frontier(cursor), false);
  }

  lemma StartIsHonest(row: Option<Discovery>, query: string, log: seq<Event>)
    requires row.Some? ==> Honest(row.value, log)
    ensures Honest(Start(row, query), log) && !Start(row, query).progress.Finished?
    ensures row.Some? && !row.value.progress.Finished? && row.value.query == query <==>
              row.Some? && Start(row, query) == row.value
    ensures row.Some? && Start(row, query) != row.value ==> Start(row, query).generation > row.value.generation
    ensures row.None? || Start(row, query) != row.value ==> Start(row, query).nextPage == 1 && Start(row, query).requests == 0
  {
  }

  predicate Advanced(start: Discovery, d: Discovery) {
    d.progress.Finished? || d.nextPage > start.nextPage
  }

  predicate ByBounds(stop: Option<StopReason>) {
    stop.None? || stop.value.ItemBound? || stop.value.PageBound?
  }

  /** A run that neither requests nor the provider stop advances exactly when its first page fits
      the item bound. */
  lemma FirstPageDecides(w: World, bounds: Bounds, start: Discovery)
    requires bounds.Valid() && WellPaged(w, start.nextPage) && !start.progress.Finished?
    ensures var r := RunFrom(w, bounds, start);
            !r.failed && ByBounds(r.stop) ==>
              (Advanced(start, r.cursor) <==> ListsFitting(w, bounds, NO_ITEMS, 1))
  {
    PageFacts(w, bounds, start, NO_ITEMS, 1, 0);
    NextAtPage(w, bounds, start.requests, start.nextPage, start, NO_ITEMS, 0, 0);
    var s := OnePage(w, bounds, start, NO_ITEMS, 1, 0);
    if GoesOn(w, bounds, s, 0) {
      RunFacts(w, bounds, start.requests, start.nextPage, Moved(start.requests, s), s.tally, 1, s.completed);
    }
  }

  /** What every run keeps: its cursor is honest about everything tried so far, counts and requests
      stay within bounds, and it ends for a reason. */
  lemma RunIsSound(w: World, bounds: Bounds, start: Discovery, log: seq<Event>)
    requires bounds.Valid() && WellPaged(w, start.nextPage) && !start.progress.Finished? && Honest(start, log)
    ensures var r := RunFrom(w, bounds, start);
            && Honest(CursorOf(start, r), log + r.events)
            && InRange(bounds, start, NO_ITEMS, 0, 0, r)
            && (if r.failed then CallFailed(w) else Reasoned(w, bounds, r))
  {
    RunFacts(w, bounds, start.requests, start.nextPage, start, NO_ITEMS, 0, 0);
    RunEvents(w, bounds, start.requests, start.nextPage, start, NO_ITEMS, 0, 0);
    HonestAfter(start, RunFrom(w, bounds, start).cursor, log, RunFrom(w, bounds, start).events);
  }

  /** The feedback items of the first n pull requests. */
  function FoundUpTo(w: World, n: nat): nat {
    if n == 0 then 0 else FoundUpTo(w, n - 1) + w.feedback(n).found
  }

  predicate Counted(w: World, t: Tally) {
    t.found == FoundUpTo(w, |t.items|)
  }

  lemma {:induction false} ItemsCounted(w: World, bounds: Bounds, d: Discovery, items: seq<Issue>, j: nat, t: Tally, completed: nat)
    requires j <= |items| && Counted(w, t)
    ensures Counted(w, RunItems(w, bounds, d, items, j, t, completed).tally)
    decreases |items| - j
  {
    if j < |items| && |t.items| < bounds.maxPullRequests {
      if !items[j].Indexable() {
        ItemsCounted(w, bounds, d, items, j + 1, t, completed);
      } else {
        var f := w.feedback(|t.items| + 1);
        var status := StatusOf(f, completed, bounds.maxRequests);
        var t' := Tally(t.items + [status], t.found + f.found);
        assert Counted(w, t');
        if w.reported(|t'.items|) && !status.ItemRetryable? {
          ItemsCounted(w, bounds, d, items, j + 1, t', Spent(f, completed, bounds.maxRequests));
        }
      }
    }
  }

  lemma {:induction false} RunCounted(w: World, bounds: Bounds, initial: nat, d: Discovery, t: Tally, pages: nat, completed: nat)
    requires Counted(w, t)
    ensures Counted(w, RunPages(w, bounds, initial, d, t, pages, completed).tally)
    decreases bounds.maxPages - pages
  {
    if |t.items| < bounds.maxPullRequests && pages < bounds.maxPages {
      PageCounted(w, bounds, d, t, pages + 1, completed);
      var s := OnePage(w, bounds, d, t, pages + 1, completed);
      if GoesOn(w, bounds, s, pages) {
        RunCounted(w, bounds, initial, Moved(initial, s), s.tally, pages + 1, s.completed);
      }
    }
  }

  lemma PageCounted(w: World, bounds: Bounds, d: Discovery, t: Tally, k: nat, completed: nat)
    requires Counted(w, t)
    ensures Counted(w, OnePage(w, bounds, d, t, k, completed).tally)
  {
    if completed < bounds.maxRequests && w.list(k).Listing? {
      ItemsCounted(w, bounds, d, w.list(k).items, 0, t, completed + 1);
    }
  }

  /** What a reported run counts: every feedback item of every pull request it tried, and on the
      cursor the requests of all runs of the discovery. */
  lemma ReportedCounts(w: World, bounds: Bounds, start: Discovery)
    requires OutcomeOf(w, bounds, start).Reported?
    ensures var r := OutcomeOf(w, bounds, start).result;
            r.tally.found == FoundUpTo(w, |r.tally.items|) && r.cursor.requests == start.requests + r.requests
  {
    RunCounted(w, bounds, start.requests, start, NO_ITEMS, 0, 0);
  }

  // ---------------------------------------------------------------------------
  // What a complete status covers
  // ---------------------------------------------------------------------------

  /** A complete run: every page from its first to its last is done to the end, and it touched no
      other page. */
  ghost predicate CompleteRun(start: Discovery, cursor: Discovery, events: seq<Event>) {
    && 1 <= start.nextPage <= cursor.nextPage
    && PagesDone(events, start.generation, start.nextPage, cursor.nextPage + 1, true)
    && EventsIn(events, start.generation, start.nextPage, cursor.nextPage)
  }

  lemma CompleteMeans(w: World, bounds: Bounds, start: Discovery)
    requires bounds.Valid() && start.nextPage >= 1 && WellPaged(w, start.nextPage) && !start.progress.Finished?
    requires OutcomeOf(w, bounds, start).Reported? && OutcomeOf(w, bounds, start).result.complete
    ensures CompleteRun(start, OutcomeOf(w, bounds, start).result.cursor, RunFrom(w, bounds, start).events)
  {
    RunEvents(w, bounds, start.requests, start.nextPage, start, NO_ITEMS, 0, 0);
  }

  /** Whatever happened before under an honest cursor, a complete run means that its whole
      generation was read to the end, if and only if the run began at page 1. */
  lemma CompleteCoversGenerationIff(start: Discovery, cursor: Discovery, events: seq<Event>)
    requires CompleteRun(start, cursor, events) && !start.progress.Finished?
    ensures (forall log :: Honest(start, log) ==> PagesDone(log + events, start.generation, 1, cursor.nextPage + 1, true))
            <==> start.nextPage == 1
  {
    if start.nextPage == 1 {
      forall log | Honest(start, log)
        ensures PagesDone(log + events, start.generation, 1, cursor.nextPage + 1, true)
      {
        PagesStayDone(log, events, [], start.generation, 1, cursor.nextPage + 1, true);
        assert log + events + [] == log + events;
      }
    } else {
      var log := FailedPages(start.generation, start.nextPage);
      FailedPagesHonest(start.generation, start.nextPage);
      forall i
        ensures !DoneAt(log + events, i, start.generation, 1, true)
      {
        if 0 <= i < |log + events| && (log + events)[i].Listed? && (log + events)[i].page == 1 {
          assert (log + events)[i] in log;
          assert Issue(true, 1) in (log + events)[i].items && Issue(true, 1).Indexable();
          NeverComplete(start, cursor, events, i + 1);
        }
      }
      assert !PageDone(log + events, start.generation, 1, true);
      assert Honest(start, log);
    }
  }

  lemma NeverComplete(start: Discovery, cursor: Discovery, events: seq<Event>, from: nat)
    requires CompleteRun(start, cursor, events) && start.nextPage > 1
    requires from <= |FailedPages(start.generation, start.nextPage) + events|
    ensures !WasTried((FailedPages(start.generation, start.nextPage) + events)[from..], start.generation, 1, 1, true)
  {
    var log := FailedPages(start.generation, start.nextPage);
    FailedPagesHonest(start.generation, start.nextPage);
    forall e | e in (log + events)[from..]
      ensures e in log || e in events
    {
    }
  }

  /** A history in which every page before `before` was tried and failed. */
  ghost function FailedPages(generation: nat, before: nat): seq<Event> {
    if before <= 1 then []
    else
      FailedPages(generation, before - 1)
      + [Listed(generation, before - 1, [Issue(true, 1)]), Tried(generation, before - 1, 1, ItemFailed)]
  }

  lemma {:induction false} FailedPagesHonest(generation: nat, before: nat)
    ensures PagesDone(FailedPages(generation, before), generation, 1, before, false)
    ensures forall e :: e in FailedPages(generation, before) ==>
              if e.Listed? then e.items == [Issue(true, 1)] else e.status == ItemFailed
  {
    if before > 1 {
      FailedPagesHonest(generation, before - 1);
      var log, last := FailedPages(generation, before - 1),
                       [Listed(generation, before - 1, [Issue(true, 1)]), Tried(generation, before - 1, 1, ItemFailed)];
      PagesStayDone([], log, last, generation, 1, before - 1, false);
      assert [] + log + last == log + last && log + last + [] == log + last;
      assert last[1] in last[1..];
      assert WasTried(last[1..], generation, before - 1, 1, false);
      assert DoneAt(last, 0, generation, before - 1, false);
      PageStaysDone(log, last, [], generation, before - 1, false);
    }
  }

  /** A page with nothing on it but one pull request. */
  function OneEach(status: ItemStatus, hasNext: bool, first: nat): World {
    World(true, (k: nat) => Listing([Issue(true, k)], hasNext, first + k), _ => Feedback(1, 0, status, ItemFailed),
          _ => true, _ => true, _ => true, _ => Landed, true)
  }

  lemma OneItem(w: World, bounds: Bounds, d: Discovery, t: Tally, k: nat, completed: nat, status: ItemStatus)
    requires k >= 1 && w.list(k).Listing? && w.list(k).items == [Issue(true, k)]
    requires w.feedback(|t.items| + 1) == Feedback(1, 0, status, ItemFailed) && w.reported(|t.items| + 1)
    requires |t.items| < bounds.maxPullRequests && completed + 2 <= bounds.maxRequests
    ensures var items := [Issue(true, k)];
            var t' := Tally(t.items + [status], t.found);
            RunItems(w, bounds, d, items, 0, t, completed + 1) ==
            ItemsEnd(if status.ItemRetryable? then Stopped(BudgetExhausted) else WholePage, t', completed + 2,
                     [Tried(d.generation, d.nextPage, k, status)])
  {
    var items := [Issue(true, k)];
    var t' := Tally(t.items + [status], t.found);
    assert RunItems(w, bounds, d, items, 1, t', completed + 2) == ItemsEnd(WholePage, t', completed + 2, []);
  }

  /** Two runs of one generation: the first tries page 1 in vain and stops at its page bound; the
      second resumes at page 2 and reports a complete index. */
  lemma EarlierFailureForgotten() returns (bounds: Bounds, w1: World, w2: World, first: Result, second: Result)
    ensures bounds.Valid() && WellPaged(w1, 1) && WellPaged(w2, 2)
    ensures OutcomeOf(w1, bounds, Start(None, bounds.query)) == Reported(first)
    ensures first.stop == Some(PageBound) && first.tally.items == [ItemFailed] && !first.complete
    ensures OutcomeOf(w2, bounds, Start(Some(first.cursor), bounds.query)) == Reported(second)
    ensures second.complete && second.cursor.generation == first.cursor.generation == 1
    ensures !PageDone(RunFrom(w1, bounds, Start(None, bounds.query)).events
                      + RunFrom(w2, bounds, Start(Some(first.cursor), bounds.query)).events, 1, 1, true)
  {
    bounds := Bounds("", 10, 1, 10);
    w1, w2 := OneEach(ItemFailed, true, 1), OneEach(ItemComplete, false, 2);
    var start := Start(None, "");
    OneItem(w1, bounds, start, NO_ITEMS, 1, 0, ItemFailed);
    assert OnePage(w1, bounds, start, NO_ITEMS, 1, 0).turn == NextPage;
    var r1 := RunFrom(w1, bounds, start);
    assert r1.stop == Some(PageBound) && r1.tally == Tally([ItemFailed], 0);
    first := ResultOf(start, r1);
    var again := Start(Some(first.cursor), "");
    assert again.nextPage == 2;
    OneItem(w2, bounds, again, NO_ITEMS, 1, 0, ItemComplete);
    assert OnePage(w2, bounds, again, NO_ITEMS, 1, 0).turn == LastPage;
    var r2 := RunFrom(w2, bounds, again);
    assert r2.stop.None? && r2.tally == Tally([ItemComplete], 0);
    second := ResultOf(again, r2);
    assert r1.events == [Listed(1, 1, [Issue(true, 1)]), Tried(1, 1, 1, ItemFailed)];
    assert r2.events == [Listed(1, 2, [Issue(true, 1)]), Tried(1, 2, 1, ItemComplete)];
    FirstPageNotDone(r1.events + r2.events);
  }

  lemma FirstPageNotDone(log: seq<Event>)
    requires log == [Listed(1, 1, [Issue(true, 1)]), Tried(1, 1, 1, ItemFailed),
                     Listed(1, 2, [Issue(true, 1)]), Tried(1, 2, 1, ItemComplete)]
    ensures !PageDone(log, 1, 1, true)
  {
    assert forall e :: e in log[1..] ==> e in log;
    assert !WasTried(log[1..], 1, 1, 1, true);
    assert Issue(true, 1) in log[0].items && Issue(true, 1).Indexable();
    assert !DoneAt(log, 0, 1, 1, true);
  }

  /** An item whose provider asks to try again is reported as an exhausted budget, with requests
      left. */
  lemma RetryableReportedAsBudget() returns (bounds: Bounds, w: World, r: Result)
    ensures bounds.Valid() && WellPaged(w, 1) && OutcomeOf(w, bounds, Start(None, bounds.query)) == Reported(r)
    ensures r.stop == Some(BudgetExhausted) && r.requests < bounds.maxRequests
  {
    bounds := Bounds("", 10, 1, 10);
    w := OneEach(ItemRetryable, false, 1);
    var start := Start(None, "");
    OneItem(w, bounds, start, NO_ITEMS, 1, 0, ItemRetryable);
    assert OnePage(w, bounds, start, NO_ITEMS, 1, 0).turn == StopFor(BudgetExhausted);
    r := ResultOf(start, RunFrom(w, bounds, start));
  }

  // ---------------------------------------------------------------------------
  // The item bound and the page size
  // ---------------------------------------------------------------------------

  /** A page of at most 100 listed items fits every bound of at least 100, so such a run, not
      stopped by requests or the provider, strictly advances or finishes. */
  lemma FullPageBoundAdvances(w: World, bounds: Bounds, start: Discovery)
    requires bounds.Valid() && WellPaged(w, start.nextPage) && !start.progress.Finished?
    requires w.list(1).Listing? && |w.list(1).items| <= PAGE_SIZE <= bounds.maxPullRequests
    ensures var r := RunFrom(w, bounds, start);
            !r.failed && ByBounds(r.stop) ==> Advanced(start, r.cursor)
  {
    var items := w.list(1).items;
    FirstPageDecides(w, bounds, start);
    FitsIff(items, 0, bounds.maxPullRequests);
    if items != [] {
      IndexablesBound(items, 0);
      IndexablesTail(items, 0);
    }
  }

  lemma {:induction false} IndexablesTail(items: seq<Issue>, j: nat)
    requires j < |items|
    ensures Indexables(items, j) - (if items[|items| - 1].Indexable() then 1 else 0) < |items| - j
    decreases |items| - j
  {
    if j + 1 < |items| {
      IndexablesTail(items, j + 1);
    }
  }

  /** With a smaller bound a run can end where it began, by its item bound if requests suffice;
      resuming it meets the same page again. */
  lemma SmallBoundStalls(bounds: Bounds, d: Discovery) returns (w: World, r: Result)
    requires bounds.Valid() && bounds.maxPullRequests < PAGE_SIZE && !d.progress.Finished?
    ensures w.list(1).Listing? && |w.list(1).items| <= PAGE_SIZE && WellPaged(w, d.nextPage)
    ensures OutcomeOf(w, bounds, d) == Reported(r)
    ensures r.cursor.nextPage == d.nextPage && !r.cursor.progress.Finished?
    ensures bounds.maxPullRequests < bounds.maxRequests ==> r.stop == Some(ItemBound)
  {
    var items := seq(bounds.maxPullRequests + 1, i => Issue(true, i + 1));
    w := World(true, (k: nat) => Listing(items, true, d.nextPage + k), _ => Feedback(1, 0, ItemComplete, ItemRetryable),
               _ => true, _ => true, _ => true, _ => Landed, true);
    BoundUsedUp(w, bounds, d, items, 0, NO_ITEMS, 1);
    var s := OnePage(w, bounds, d, NO_ITEMS, 1, 0);
    assert s.turn.StopFor? && s.cursor == d;
    assert RunFrom(w, bounds, d) == EndAfter(bounds, s, 0);
    r := ResultOf(d, RunFrom(w, bounds, d));
  }

  lemma {:induction false} BoundUsedUp(w: World, bounds: Bounds, d: Discovery, items: seq<Issue>, j: nat, t: Tally, completed: nat)
    requires |items| == bounds.maxPullRequests + 1 && j == |t.items| <= bounds.maxPullRequests
    requires forall i :: 0 <= i < |items| ==> items[i].Indexable()
    requires forall k :: w.feedback(k) == Feedback(1, 0, ItemComplete, ItemRetryable) && w.reported(k)
    ensures RunItems(w, bounds, d, items, j, t, completed).end.Stopped?
    ensures completed + bounds.maxPullRequests - j <= bounds.maxRequests ==>
              RunItems(w, bounds, d, items, j, t, completed).end == Stopped(ItemBound)
    decreases |items| - j
  {
    if j < bounds.maxPullRequests && completed < bounds.maxRequests {
      BoundUsedUp(w, bounds, d, items, j + 1, Tally(t.items + [ItemComplete], t.found), completed + 1);
    }
  }

  // ---------------------------------------------------------------------------
  // The job
  // ---------------------------------------------------------------------------

  /** indexOnePullRequestFeedback: one request after the other until the budget refuses. */
  method IndexOne(f: Feedback, b: RequestBudget) returns (status: ItemStatus)
    requires b.completed <= b.limit
    modifies b
    ensures b.completed == Spent(f, old(b.completed), b.limit) <= b.limit
    ensures status == StatusOf(f, old(b.completed), b.limit)
  {
    for k := 0 to f.wants
      invariant b.completed == old(b.completed) + k <= b.limit
    {
      var ok := b.Take();
      if !ok {
        return f.short;
      }
    }
    status := f.status;
  }

  /** The items of one listing, in order, until a bound or the budget stops the run. */
  method IndexItems(w: World, bounds: Bounds, d: Discovery, items: seq<Issue>, b: RequestBudget, t: Tally)
    returns (end: PageEnd, t': Tally, ghost events: seq<Event>)
    requires b.completed <= b.limit == bounds.maxRequests
    modifies b
    ensures b.completed <= b.limit
    ensures ItemsEnd(end, t', b.completed, events) == RunItems(w, bounds, d, items, 0, t, old(b.completed))
  {
    t', events := t, [];
    var j := 0;
    while j < |items|
      invariant 0 <= j <= |items| && b.completed <= b.limit
      invariant RunItems(w, bounds, d, items, 0, t, old(b.completed)) ==
                Prepend(events, RunItems(w, bounds, d, items, j, t', b.completed))
    {
      if |t'.items| >= bounds.maxPullRequests {
        return Stopped(ItemBound), t', events;
      }
      if items[j].Indexable() {
        var f := w.feedback(|t'.items| + 1);
        var status := IndexOne(f, b);
        t' := Tally(t'.items + [status], t'.found + f.found);
        events := events + [Tried(d.generation, d.nextPage, items[j].number, status)];
        if !w.reported(|t'.items|) {
          return Aborted, t', events;
        }
        if status.ItemRetryable? {
          return Stopped(BudgetExhausted), t', events;
        }
      }
      j := j + 1;
    }
    end := WholePage;
  }

  /** One listing and its items, recorded in the log. */
  method IndexPage(w: World, bounds: Bounds, table: Table, b: RequestBudget, d: Discovery, t: Tally, k: nat)
    returns (turn: Turn, d': Discovery, t': Tally, ghost events: seq<Event>)
    requires table.Valid() && b.completed <= b.limit == bounds.maxRequests
    modifies table`log, b
    ensures table.Valid() && table.log == old(table.log) + events && b.completed <= b.limit
    ensures PageStep(turn, d', t', b.completed, events) == OnePage(w, bounds, d, t, k, old(b.completed))
  {
    d', t', events := d, t, [];
    var ok := b.Take();
    if !ok {
      return OutOfBudget, d', t', events;
    }
    var listed := w.list(k);
    if listed.ListFailed? {
      return StopFor(if listed.retryable then ProviderRetryable else DiscoveryFailed), d', t', events;
    }
    var end;
    end, t', events := IndexItems(w, bounds, d, listed.items, b, t);
    events := [Listed(d.generation, d.nextPage, listed.items)] + events;
    StaysHonest(table.row, table.log, events);
    table.log := table.log + events;
    match end {
      case Aborted =>
        turn := Fail;
      case Stopped(reason) =>
        turn := StopFor(reason);
      case WholePage =>
        if listed.hasNext {
          turn, d' := NextPage, d.(nextPage := listed.next, progress := Truncated);
        } else {
          turn, d' := LastPage, d.(progress := Finished);
        }
    }
  }

  /** The stored row has not overtaken the cursor. */
  predicate Behind(row: Option<Discovery>, d: Discovery) {
    row.None? || row.value.generation < d.generation
    || (row.value.generation == d.generation && row.value.nextPage <= d.nextPage)
  }

  /** Every write of the cursor is counted, lands, and finds a clock that has not gone back. */
  ghost predicate AllWritesHold(w: World) {
    forall k :: w.counted(k) && w.stored(k).Landed? && w.newer(k)
  }

  /** One iteration of the page loop: the page, and the write of a cursor that moved. */
  method VisitPage(w: World, bounds: Bounds, table: Table, b: RequestBudget, initial: nat, ghost first: nat,
                   d: Discovery, t: Tally, pages: nat)
    returns (goesOn: bool, failed: bool, d': Discovery, t': Tally, stop: Option<StopReason>, pages': nat, ghost r: RunEnd)
    requires AtPage(w, bounds, first, d, t, pages, b.completed) && |t.items| < bounds.maxPullRequests
    requires b.limit == bounds.maxRequests && InStep(table, d)
    modifies table, b
    ensures InStep(table, d') && table.log == old(table.log) + r.events
    ensures AllWritesHold(w) ==> table.row == if goesOn then Some(d') else old(table.row)
    ensures AllWritesHold(w) && failed ==> d' == d
    ensures goesOn ==> stop.None? && !failed
    ensures r.cursor == d' && r.tally == t' && r.completed == b.completed && r.pages == pages' && r.failed == failed && r.stop == stop
    ensures var s := OnePage(w, bounds, d, t, pages + 1, old(b.completed));
            && goesOn == GoesOn(w, bounds, s, pages)
            && (if goesOn then d' == Moved(initial, s) && t' == s.tally && r.events == s.events && pages' == pages + 1
                               && b.completed == s.completed
                else r == EndAfter(bounds, s, pages))
  {
    PageFacts(w, bounds, d, t, pages + 1, b.completed);
    PageEvents(w, bounds, d, t, pages + 1, b.completed);
    ghost var log := table.log;
    var turn;
    ghost var events;
    turn, d', t', events := IndexPage(w, bounds, table, b, d, t, pages + 1);
    StaysHonest(Some(d), log, events);
    goesOn, failed, stop, pages' := false, turn.Fail?, None, pages;
    if turn.NextPage? || turn.LastPage? {
      HonestAfter(d, d', log, events);
      pages' := pages + 1;
    }
    match turn {
      case OutOfBudget =>
        stop := Some(BudgetExhausted);
      case StopFor(reason) =>
        stop := Some(reason);
      case NextPage =>
        if pages' >= bounds.maxPages {
          stop := Some(PageBound);
        } else if !w.counted(pages') {
          failed := true;
        } else {
          var moved := d'.(requests := initial + b.completed);
          goesOn := table.Upsert(moved, w.newer(pages'), w.stored(pages'));
          failed := !goesOn;
          d' := if goesOn then moved else d';
        }
      case _ =>
    }
    r := RunEnd(failed, d', t', stop, turn.OutOfBudget?, pages', b.completed, events);
  }

  /** The loop is at a page of the specified run, `events` behind it. */
  ghost predicate OnTrack(w: World, bounds: Bounds, start: Discovery, run: RunEnd, d: Discovery, t: Tally, pages: nat, completed: nat,
                          events: seq<Event>)
  {
    && AtPage(w, bounds, start.nextPage, d, t, pages, completed)
    && run == After(events, RunPages(w, bounds, start.requests, d, t, pages, completed))
  }

  lemma TrackBegins(w: World, bounds: Bounds, start: Discovery)
    requires bounds.Valid() && WellPaged(w, start.nextPage) && !start.progress.Finished?
    ensures OnTrack(w, bounds, start, RunFrom(w, bounds, start), start, NO_ITEMS, 0, 0, [])
  {
  }

  lemma TrackStep(w: World, bounds: Bounds, start: Discovery, run: RunEnd, d: Discovery, t: Tally, pages: nat, completed: nat,
                  events: seq<Event>)
    requires OnTrack(w, bounds, start, run, d, t, pages, completed, events) && |t.items| < bounds.maxPullRequests
    ensures var s := OnePage(w, bounds, d, t, pages + 1, completed);
            if GoesOn(w, bounds, s, pages) then
              OnTrack(w, bounds, start, run, Moved(start.requests, s), s.tally, pages + 1, s.completed, events + s.events)
            else
              run == After(events, EndAfter(bounds, s, pages))
  {
    NextAtPage(w, bounds, start.requests, start.nextPage, d, t, pages, completed);
  }

  lemma TrackEnds(w: World, bounds: Bounds, start: Discovery, run: RunEnd, d: Discovery, t: Tally, pages: nat, completed: nat,
                  events: seq<Event>)
    requires OnTrack(w, bounds, start, run, d, t, pages, completed, events)
    requires |t.items| >= bounds.maxPullRequests || pages >= bounds.maxPages
    ensures run == RunEnd(false, d, t, None, false, pages, completed, events)
  {
  }

  /** The table agrees with the loop: it is honest and behind the cursor, which is honest too. */
  ghost predicate InStep(table: Table, d: Discovery)
    reads table
  {
    table.Valid() && Honest(d, table.log) && Behind(table.row, d)
  }

  /** One iteration, seen from the run as a whole. */
  method Advance(w: World, bounds: Bounds, table: Table, b: RequestBudget, start: Discovery, d: Discovery, t: Tally, pages: nat,
                 ghost run: RunEnd, ghost log: seq<Event>, ghost events: seq<Event>)
    returns (goesOn: bool, failed: bool, d': Discovery, t': Tally, stop: Option<StopReason>, pages': nat, ghost r: RunEnd)
    requires OnTrack(w, bounds, start, run, d, t, pages, b.completed, events) && |t.items| < bounds.maxPullRequests
    requires b.limit == bounds.maxRequests && InStep(table, d) && table.log == log + events
    modifies table, b
    ensures InStep(table, d') && table.log == log + r.events
    ensures AllWritesHold(w) ==> table.row == if goesOn then Some(d') else old(table.row)
    ensures AllWritesHold(w) && failed ==> d' == d
    ensures r == RunEnd(failed, d', t', stop, r.refused, pages', b.completed, r.events)
    ensures pages' <= bounds.maxPages && pages <= pages' && (goesOn ==> pages < pages')
    ensures goesOn ==> OnTrack(w, bounds, start, run, d', t', pages', b.completed, r.events)
    ensures !goesOn ==> r == run
  {
    TrackStep(w, bounds, start, run, d, t, pages, b.completed, events);
    goesOn, failed, d', t', stop, pages', r := VisitPage(w, bounds, table, b, start.requests, start.nextPage, d, t, pages);
    r := After(events, r);
  }

  /** The page loop. */
  method Discover(w: World, bounds: Bounds, table: Table, b: RequestBudget, start: Discovery)
    returns (failed: bool, d: Discovery, t: Tally, stop: Option<StopReason>, pages: nat, ghost r: RunEnd)
    requires bounds.Valid() && InStep(table, start) && !start.progress.Finished?
    requires WellPaged(w, start.nextPage) && b.completed == 0 && b.limit == bounds.maxRequests
    modifies table, b
    ensures InStep(table, d) && table.log == old(table.log) + r.events
    ensures AllWritesHold(w) && failed ==> table.row == (if d == start then old(table.row) else Some(d))
    ensures AllWritesHold(w) && failed ==> d == start || d.nextPage != start.nextPage
    ensures r == RunFrom(w, bounds, start)
    ensures r == RunEnd(failed, d, t, stop, r.refused, pages, b.completed, r.events)
  {
    TrackBegins(w, bounds, start);
    ghost var run := RunFrom(w, bounds, start);
    d, t, stop, pages, failed := start, NO_ITEMS, None, 0, false;
    ghost var events: seq<Event>, log := [], table.log;
    while |t.items| < bounds.maxPullRequests && pages < bounds.maxPages
      invariant InStep(table, d) && table.log == log + events && b.limit == bounds.maxRequests
      invariant OnTrack(w, bounds, start, run, d, t, pages, b.completed, events)
      invariant AllWritesHold(w) ==> table.row == if pages == 0 then old(table.row) else Some(d)
      invariant pages == 0 ==> d == start
      decreases bounds.maxPages - pages
    {
      var goesOn;
      goesOn, failed, d, t, stop, pages, r := Advance(w, bounds, table, b, start, d, t, pages, run, log, events);
      if !goesOn {
        return;
      }
      events := r.events;
    }
    TrackEnds(w, bounds, start, run, d, t, pages, b.completed, events);
    failed, stop := false, None;
    r := RunEnd(false, d, t, None, false, pages, b.completed, events);
  }

  /** The row a run leaves behind, failed or not, when its writes hold: the cursor it got to, so
      that the next run begins where this one stopped, or the old row when a run that failed got
      nowhere. */
  ghost predicate Resumable(start: Discovery, r: RunEnd, before: Option<Discovery>, after: Option<Discovery>) {
    if r.failed && r.cursor.nextPage == start.nextPage then after == before
    else
      && after.Some? && after.value.generation == r.cursor.generation && after.value.nextPage == r.cursor.nextPage
      && after.value.query == start.query && (after.value.progress.Finished? <==> r.cursor.progress.Finished?)
  }

  /** A run whose writes hold and that is not finished is taken up by the next one where it got to,
      in the same generation. */
  lemma NextRunResumes(w: World, bounds: Bounds, before: Option<Discovery>, after: Option<Discovery>)
    requires bounds.Valid() && WellPaged(w, Start(before, bounds.query).nextPage)
    requires before.Some? ==> before.value.nextPage >= 1
    requires Resumable(Start(before, bounds.query), RunFrom(w, bounds, Start(before, bounds.query)), before, after)
    ensures var r := RunFrom(w, bounds, Start(before, bounds.query));
            !r.cursor.progress.Finished? ==>
              Start(after, bounds.query).nextPage == r.cursor.nextPage && Start(after, bounds.query).generation == r.cursor.generation
  {
    var start := Start(before, bounds.query);
    RunFacts(w, bounds, start.requests, start.nextPage, start, NO_ITEMS, 0, 0);
  }

  lemma FailedIsResumable(w: World, bounds: Bounds, start: Discovery, r: RunEnd, before: Option<Discovery>, after: Option<Discovery>)
    requires bounds.Valid() && WellPaged(w, start.nextPage) && !start.progress.Finished?
    requires r == RunFrom(w, bounds, start) && r.failed
    requires after == (if r.cursor == start then before else Some(r.cursor)) && (r.cursor != start ==> r.cursor.nextPage != start.nextPage)
    ensures Resumable(start, r, before, after)
  {
    RunFacts(w, bounds, start.requests, start.nextPage, start, NO_ITEMS, 0, 0);
  }

  lemma EndedIsResumable(w: World, bounds: Bounds, start: Discovery, r: RunEnd, before: Option<Discovery>)
    requires bounds.Valid() && WellPaged(w, start.nextPage) && !start.progress.Finished?
    requires r == RunFrom(w, bounds, start) && !r.failed
    ensures Resumable(start, r, before, Some(CursorOf(start, r)))
  {
    RunFacts(w, bounds, start.requests, start.nextPage, start, NO_ITEMS, 0, 0);
  }

  /** After the page loop: the last write of the cursor, and the result. */
  method Conclude(w: World, bounds: Bounds, table: Table, start: Discovery, d: Discovery, t: Tally, stop: Option<StopReason>, pages: nat,
                  completed: nat, ghost r: RunEnd, ghost before: Option<Discovery>)
    returns (out: Outcome)
    requires bounds.Valid() && WellPaged(w, start.nextPage) && !start.progress.Finished? && w.connected
    requires r == RunFrom(w, bounds, start) && r == RunEnd(false, d, t, stop, r.refused, pages, completed, r.events)
    requires table.Valid() && Honest(CursorOf(start, r), table.log) && Behind(table.row, d)
    modifies table`row
    ensures table.Valid() && out == OutcomeOf(w, bounds, start)
    ensures out.Reported? && (forall k :: w.newer(k)) ==> table.row == Some(out.result.cursor)
    ensures AllWritesHold(w) ==> Resumable(start, r, before, table.row)
  {
    if !w.counted(pages + 1) {
      return Failed;
    }
    EndedIsResumable(w, bounds, start, r, before);
    var last := d.(progress := if stop.Some? then Truncated else d.progress, requests := start.requests + completed);
    var ok := table.Upsert(last, w.newer(pages + 1), w.stored(pages + 1));
    if !ok || !w.rebuilt {
      return Failed;
    }
    var allComplete := AllItemsComplete(t);
    out := Reported(Result(stop.None? && last.progress.Finished? && allComplete, last, t, completed, stop));
  }

  /** indexPullRequestFeedback: the run it makes is exactly the one specified, and the stored row
      is honest however it ends. */
  method Index(w: World, bounds: Bounds, table: Table) returns (out: Outcome)
    requires bounds.Valid() && table.Valid() && WellPaged(w, Start(table.row, bounds.query).nextPage)
    modifies table
    ensures table.Valid()
    ensures out == OutcomeOf(w, bounds, Start(old(table.row), bounds.query))
    ensures w.connected ==> table.log == old(table.log) + RunFrom(w, bounds, Start(old(table.row), bounds.query)).events
    ensures !w.connected ==> table.log == old(table.log) && table.row == old(table.row)
    ensures out.Reported? && (forall k :: w.newer(k)) ==> table.row == Some(out.result.cursor)
    ensures w.connected && AllWritesHold(w) ==>
              Resumable(Start(old(table.row), bounds.query), RunFrom(w, bounds, Start(old(table.row), bounds.query)),
                        old(table.row), table.row)
  {
    if !w.connected {
      return Failed;
    }
    var start := Start(table.row, bounds.query);
    StartIsHonest(table.row, bounds.query, table.log);
    RunIsSound(w, bounds, start, table.log);
    var b := new RequestBudget(bounds.maxRequests);
    ghost var r;
    var failed, d, t, stop, pages;
    failed, d, t, stop, pages, r := Discover(w, bounds, table, b, start);
    if failed {
      if AllWritesHold(w) {
        FailedIsResumable(w, bounds, start, r, old(table.row), table.row);
      }
      return Failed;
    }
    out := Conclude(w, bounds, table, start, d, t, stop, pages, b.completed, r, old(table.row));
  }

  method AllItemsComplete(t: Tally) returns (r: bool)
    ensures r <==> t.AllComplete()
  {
    for i := 0 to |t.items|
      invariant forall j :: 0 <= j < i ==> t.items[j].ItemComplete?
    {
      if !t.items[i].ItemComplete? {
        return false;
      }
    }
    r := true;
  }
}
