/** The hourly archive crawl: fetch every hour of a range that is not marked imported, apply it,
    mark it, and report how far the range is done (crawlGHArchiveSource, ghArchiveStats and
    flushArchiveHour in internal/app/discovery.go). Hours are numbered. */
module ArchiveCrawl {
  import opened Options
  import opened StoreCalls
  import opened ArchiveStore

  /** The rows and import marks of one archive source; `faults` scripts the store calls. */
  class Corpus {
    const faults: nat -> Landing
    var calls: nat
    var rows: Rows
    var imported: set<int>
    ghost var fetched: seq<int>

    constructor (faults: nat -> Landing, rows: Rows, imported: set<int>)
      ensures this.faults == faults && this.rows == rows && this.imported == imported && fetched == []
    {
      this.faults, this.rows, this.imported, this.calls, this.fetched := faults, rows, imported, 0, [];
    }

    ghost function Now(): Store
      reads this
    {
      Store(rows, imported, fetched)
    }

    method UpsertRepository(ref: Ref, r: Repository) returns (ok: bool)
      modifies this`calls, this`rows
      ensures rows == old(rows) || rows == old(rows).(repos := old(rows).repos[ref := UpsertRepo(Get(old(rows).repos, ref), r)])
      ensures !ok ==> exists k :: !faults(k).Landed?
      ensures ok ==> rows == old(rows).(repos := old(rows).repos[ref := UpsertRepo(Get(old(rows).repos, ref), r)])
    {
      calls := calls + 1;
      if !faults(calls).Refused? {
        rows := rows.(repos := rows.repos[ref := UpsertRepo(Get(rows.repos, ref), r)]);
      }
      ok := faults(calls).Landed?;
    }

    method UpsertThreadRow(key: ThreadKey, t: Thread) returns (ok: bool)
      modifies this`calls, this`rows
      ensures rows == old(rows) || rows == old(rows).(threads := old(rows).threads[key := UpsertThread(Get(old(rows).threads, key), t)])
      ensures !ok ==> exists k :: !faults(k).Landed?
      ensures ok ==> rows == old(rows).(threads := old(rows).threads[key := UpsertThread(Get(old(rows).threads, key), t)])
    {
      calls := calls + 1;
      if !faults(calls).Refused? {
        rows := rows.(threads := rows.threads[key := UpsertThread(Get(rows.threads, key), t)]);
      }
      ok := faults(calls).Landed?;
    }

    method MarkImported(hour: int) returns (ok: bool)
      modifies this`calls, this`imported
      ensures imported == old(imported) || imported == old(imported) + {hour}
      ensures !ok ==> exists k :: !faults(k).Landed?
      ensures ok ==> imported == old(imported) + {hour}
    {
      calls := calls + 1;
      if !faults(calls).Refused? {
        imported := imported + {hour};
      }
      ok := faults(calls).Landed?;
    }
  }

  // ---------------------------------------------------------------------------
  // Applying one hour
  // ---------------------------------------------------------------------------

  datatype FlushEnd = Applied | StoreFailed | MissingRepository

  /** The hour's rows except the pending ones are applied. */
  ghost predicate ReposUpTo(hour: Hour, before: Rows, now: Rows, pending: set<Ref>) {
    forall ref :: Get(now.repos, ref) == if ref in pending then Get(before.repos, ref) else RepoAfter(hour, before, ref)
  }

  ghost predicate ThreadsUpTo(hour: Hour, before: Rows, now: Rows, pending: set<ThreadKey>) {
    forall key :: Get(now.threads, key) == if key in pending then Get(before.threads, key) else ThreadAfter(hour, before, key)
  }

  lemma UpToIsPartly(hour: Hour, before: Rows, now: Rows, refs: set<Ref>, keys: set<ThreadKey>)
    requires ReposUpTo(hour, before, now, refs) && ThreadsUpTo(hour, before, now, keys)
    ensures Partly(hour, before, now)
    ensures refs == {} && keys == {} ==> Flushed(hour, before, now)
  {
  }

  /** The repositories of an hour, in any order. */
  method FlushRepos(hour: Hour, c: Corpus, known: set<Ref>) returns (ok: bool, known': set<Ref>)
    modifies c`calls, c`rows
    ensures c.rows.threads == old(c.rows).threads
    ensures exists pending :: ReposUpTo(hour, old(c.rows), c.rows, pending) && (ok ==> pending == {})
    ensures if ok then known' == known + hour.repos.Keys else exists k :: !c.faults(k).Landed?
  {
    var pending := hour.repos.Keys;
    known' := known;
    while pending != {}
      invariant pending <= hour.repos.Keys && known' == known + (hour.repos.Keys - pending)
      invariant c.rows.threads == old(c.rows).threads && ReposUpTo(hour, old(c.rows), c.rows, pending)
    {
      var ref :| ref in pending;
      ghost var was := c.rows;
      assert Get(was.repos, ref) == Get(old(c.rows).repos, ref);
      ok := c.UpsertRepository(ref, MergeRepo(hour.repos[ref], Get(c.rows.repos, ref)));
      if !ok {
        assert ReposUpTo(hour, old(c.rows), c.rows, if c.rows == was then pending else pending - {ref});
        return;
      }
      known' := known' + {ref};
      pending := pending - {ref};
    }
    ok := true;
  }

  /** The threads of an hour, in any order; `missing` is the error for a thread whose repository
      has no id. */
  method FlushThreads(hour: Hour, c: Corpus, known: set<Ref>) returns (ok: bool, missing: bool)
    modifies c`calls, c`rows
    ensures c.rows.repos == old(c.rows).repos
    ensures exists pending :: ThreadsUpTo(hour, old(c.rows), c.rows, pending) && (ok ==> pending == {})
    ensures missing ==> !ok && exists key :: key in hour.threads && key.ref !in known
    ensures !ok && !missing ==> exists k :: !c.faults(k).Landed?
  {
    var pending := hour.threads.Keys;
    missing := false;
    while pending != {}
      invariant pending <= hour.threads.Keys && !missing
      invariant c.rows.repos == old(c.rows).repos && ThreadsUpTo(hour, old(c.rows), c.rows, pending)
    {
      var key :| key in pending;
      if key.ref !in known {
        return false, true;
      }
      ghost var was := c.rows;
      assert Get(was.threads, key) == Get(old(c.rows).threads, key);
      var thread := MergeThread(hour.threads[key], Get(c.rows.threads, key));
      if thread.Some? {
        ok := c.UpsertThreadRow(key, thread.value);
        if !ok {
          assert ThreadsUpTo(hour, old(c.rows), c.rows, if c.rows == was then pending else pending - {key});
          return;
        }
      }
      pending := pending - {key};
    }
    ok := true;
  }

  /** flushArchiveHour: the missing-repository error cannot happen, and a store failure leaves
      the hour partly applied. */
  method FlushHour(hour: Hour, c: Corpus, known: set<Ref>) returns (end: FlushEnd, known': set<Ref>)
    requires hour.Valid()
    modifies c`calls, c`rows
    ensures !end.MissingRepository? && (end.StoreFailed? ==> exists k :: !c.faults(k).Landed?)
    ensures end.Applied? ==> Flushed(hour, old(c.rows), c.rows)
    ensures Partly(hour, old(c.rows), c.rows)
  {
    ghost var before := c.rows;
    var ok, missing;
    ok, known' := FlushRepos(hour, c, known);
    ghost var refs :| ReposUpTo(hour, before, c.rows, refs) && (ok ==> refs == {});
    if !ok {
      assert ThreadsUpTo(hour, before, c.rows, hour.threads.Keys);
      UpToIsPartly(hour, before, c.rows, refs, hour.threads.Keys);
      return StoreFailed, known';
    }
    ghost var between := c.rows;
    ok, missing := FlushThreads(hour, c, known');
    ghost var keys :| ThreadsUpTo(hour, between, c.rows, keys) && (ok ==> keys == {});
    forall key
      ensures ThreadAfter(hour, between, key) == ThreadAfter(hour, before, key)
    {
    }
    assert ThreadsUpTo(hour, before, c.rows, keys);
    UpToIsPartly(hour, before, c.rows, refs, keys);
    end := if ok then Applied else if missing then MissingRepository else StoreFailed;
  }

  // ---------------------------------------------------------------------------
  // The crawl
  // ---------------------------------------------------------------------------

  datatype Archive = FetchFailed | ReadFailed(events: seq<Signal>) | ReadAll(events: seq<Signal>)

  /** The archive's answer for each hour, whether the context is over at its loop head, and
      whether its import mark can be read. */
  datatype World = World(archive: int -> Archive, over: int -> bool, readable: int -> bool)

  class Stats {
    var considered: nat
    var checkpoint: Option<int>
    var checkpointGap: bool
    var events: nat
    var requests: nat
    var imported: nat
    var skipped: nat
    var failures: nat

    constructor ()
      ensures considered == events == requests == imported == skipped == failures == 0
      ensures checkpoint.None? && !checkpointGap
    {
      considered, events, requests, imported, skipped, failures := 0, 0, 0, 0, 0, 0;
      checkpoint, checkpointGap := None, false;
    }

    method RecordFailure()
      modifies this`failures, this`checkpointGap
      ensures failures == old(failures) + 1 && checkpointGap
    {
      failures := failures + 1;
      checkpointGap := true;
    }

    method AdvanceCheckpoint(hour: int)
      modifies this`checkpoint
      ensures checkpoint == if checkpointGap then old(checkpoint) else Some(hour)
    {
      if !checkpointGap {
        checkpoint := Some(hour);
      }
    }

    /** The hour at hand carries a mark from before. */
    method CountSkipped(ghost start: int, hour: int, ghost marked: set<int>, ghost failed: set<int>)
      requires Valid(start, marked, failed) && hour == start + considered && hour in marked
      modifies this
      ensures Valid(start, marked, failed) && considered == old(considered) + 1
      ensures requests == old(requests) && imported == old(imported) && events == old(events)
    {
      considered := considered + 1;
      skipped := skipped + 1;
      AdvanceCheckpoint(hour);
    }

    /** The hour at hand was fetched and did not make it. */
    method CountFailed(ghost start: int, ghost hour: int, found: nat, ghost marked: set<int>, ghost failed: set<int>)
      requires Valid(start, marked, failed) && hour == start + considered && hour !in marked
      modifies this
      ensures Valid(start, marked, failed + {hour}) && considered == old(considered) + 1
      ensures requests == old(requests) + 1 && imported == old(imported) && events == old(events) + found
    {
      considered := considered + 1;
      requests := requests + 1;
      events := events + found;
      RecordFailure();
    }

    /** The hour at hand was fetched, applied and marked. */
    method CountImported(ghost start: int, hour: int, found: nat, ghost marked: set<int>, ghost failed: set<int>)
      requires Valid(start, marked, failed) && hour == start + considered
      modifies this
      ensures Valid(start, marked + {hour}, failed) && considered == old(considered) + 1
      ensures requests == old(requests) + 1 && imported == old(imported) + 1 && events == old(events) + found
    {
      considered := considered + 1;
      requests := requests + 1;
      events := events + found;
      imported := imported + 1;
      AdvanceCheckpoint(hour);
    }

    /** At the head of the loop for hour start + considered: every hour so far was imported,
        skipped or failed, and only the first two are marked. `failed` are the failed hours. */
    ghost predicate Valid(start: int, marked: set<int>, failed: set<int>)
      reads this
    {
      && considered == imported + skipped + failures && requests == imported + failures
      && |failed| == failures && (checkpointGap <==> failures > 0)
      && (forall h :: h in failed ==> start <= h < start + considered)
      && (forall h :: start <= h < start + considered ==> (h in marked <==> h !in failed))
      && Prefix(checkpoint, start, start + considered, marked)
    }
  }

  /** The checkpoint is the last hour of the longest marked run of hours from `start`, looking at
      the hours before `stop` only. */
  ghost predicate Prefix(checkpoint: Option<int>, start: int, stop: int, marked: set<int>) {
    && (checkpoint.Some? ==> start <= checkpoint.value < stop)
    && (forall h :: start <= h < After(checkpoint, start) ==> h in marked)
    && (After(checkpoint, start) == stop || After(checkpoint, start) !in marked)
  }

  function After(checkpoint: Option<int>, start: int): int {
    if checkpoint.None? then start else checkpoint.value + 1
  }

  /** The events of an hour, applied as one hour, take the rows from one state to the other. */
  ghost predicate Imports(events: seq<Signal>, before: Rows, after: Rows) {
    exists hour: Hour :: Gathered(events, hour) && Flushed(hour, before, after)
  }

  /** The events of an hour, applied to some of their rows only. */
  ghost predicate Partway(events: seq<Signal>, before: Rows, after: Rows) {
    exists hour: Hour :: Gathered(events, hour) && Partly(hour, before, after)
  }

  /** An import that was interrupted and is made again has the effect of one import. */
  lemma InterruptedHourResumes(events: seq<Signal>, before: Rows, middle: Rows, after: Rows)
    requires Partway(events, before, middle) && Imports(events, middle, after)
    ensures Imports(events, before, after)
  {
    var a: Hour :| Gathered(events, a) && Partly(a, before, middle);
    var b: Hour :| Gathered(events, b) && Flushed(b, middle, after);
    SameMaps(a.repos, b.repos);
    SameMaps(a.threads, b.threads);
    InterruptedImportResumes(a, before, middle, after);
  }

  ghost predicate Gathered(events: seq<Signal>, hour: Hour) {
    && (forall ref :: Get(hour.repos, ref) == LastOf(events, ref))
    && (forall key :: Get(hour.threads, key) == LastOfThread(events, key))
  }

  /** The hours in turn take the rows from one state to the other. */
  ghost predicate ImportsAll(w: World, hours: seq<int>, before: Rows, after: Rows) {
    if hours == [] then before == after
    else
      var last := hours[|hours| - 1];
      w.archive(last).ReadAll? &&
      exists mid :: ImportsAll(w, hours[..|hours| - 1], before, mid) && Imports(w.archive(last).events, mid, after)
  }

  lemma ImportOneMore(w: World, hours: seq<int>, hour: int, before: Rows, mid: Rows, after: Rows)
    requires ImportsAll(w, hours, before, mid) && w.archive(hour).ReadAll? && Imports(w.archive(hour).events, mid, after)
    ensures ImportsAll(w, hours + [hour], before, after)
  {
    assert (hours + [hour])[..|hours|] == hours;
  }

  datatype Turn = Imported | HourFailed | Abort

  /** Fetching, reading, applying and marking one unmarked hour. */
  method ImportHour(w: World, c: Corpus, hour: int, known: set<Ref>) returns (turn: Turn, events: nat, known': set<Ref>)
    requires hour !in c.imported
    modifies c
    ensures c.fetched == old(c.fetched) + [hour]
    ensures events == if w.archive(hour).FetchFailed? then 0 else |w.archive(hour).events|
    ensures turn.Abort? ==> exists k :: !c.faults(k).Landed?
    ensures turn.Imported? ==>
              c.imported == old(c.imported) + {hour} && w.archive(hour).ReadAll?
              && Imports(w.archive(hour).events, old(c.rows), c.rows)
    ensures turn.HourFailed? ==> c.imported == old(c.imported) && c.rows == old(c.rows) && !w.archive(hour).ReadAll?
    ensures turn.Abort? ==>
              (c.imported == old(c.imported) && w.archive(hour).ReadAll? && Partway(w.archive(hour).events, old(c.rows), c.rows))
              || (c.imported == old(c.imported) + {hour} && w.archive(hour).ReadAll?
                  && Imports(w.archive(hour).events, old(c.rows), c.rows))
  {
    c.fetched := c.fetched + [hour];
    known' := known;
    var archive := w.archive(hour);
    if archive.FetchFailed? {
      return HourFailed, 0, known';
    }
    events := |archive.events|;
    if archive.ReadFailed? {
      return HourFailed, events, known';
    }
    var gathered := Gather(archive.events);
    assert Gathered(archive.events, gathered);
    var end;
    end, known' := FlushHour(gathered, c, known);
    if !end.Applied? {
      return Abort, events, known';
    }
    var ok := c.MarkImported(hour);
    turn := if ok then Imported else Abort;
  }

  /** A run's fetches: each of an hour before `stop` that carried no mark when the run began,
      none twice. */
  ghost predicate FetchesOk(before: seq<int>, now: seq<int>, marked: set<int>, start: int, stop: int) {
    && before <= now
    && (forall i :: |before| <= i < |now| ==> now[i] !in marked && start <= now[i] < stop)
    && (forall i, j :: |before| <= i < j < |now| ==> now[i] < now[j])
  }

  ghost predicate Marks(before: set<int>, now: set<int>, hours: seq<int>) {
    now == before + set h | h in hours
  }

  /** Failed is an error return of the crawl. */
  datatype CrawlEnd = Completed | Failed

  lemma FetchOneMore(before: seq<int>, now: seq<int>, next: seq<int>, marked: set<int>, start: int, hour: int)
    requires FetchesOk(before, now, marked, start, hour) && start <= hour
    requires next == now || (next == now + [hour] && hour !in marked)
    ensures FetchesOk(before, next, marked, start, hour + 1)
  {
  }

  lemma MarkOneMore(before: set<int>, now: set<int>, hours: seq<int>, hour: int)
    requires Marks(before, now, hours)
    ensures Marks(before, now + {hour}, hours + [hour])
  {
  }

  /** One iteration. `got` says that the hour was newly marked; `ok` is false for an error
      return. */
  method VisitHour(w: World, c: Corpus, stats: Stats, ghost start: int, hour: int, known: set<Ref>, ghost failed: set<int>)
    returns (ok: bool, known': set<Ref>, ghost got: bool, ghost failed': set<int>)
    requires stats.Valid(start, c.imported, failed) && hour == start + stats.considered
    modifies c, stats
    ensures c.fetched == old(c.fetched) || (c.fetched == old(c.fetched) + [hour] && hour !in old(c.imported))
    ensures !ok ==> !w.readable(hour) || exists k :: !c.faults(k).Landed?
    ensures c.imported == if got then old(c.imported) + {hour} else old(c.imported)
    ensures got ==> w.archive(hour).ReadAll? && Imports(w.archive(hour).events, old(c.rows), c.rows)
    ensures ok && !got ==> c.rows == old(c.rows)
    ensures !ok && !got ==>
              c.rows == old(c.rows) || (w.archive(hour).ReadAll? && Partway(w.archive(hour).events, old(c.rows), c.rows))
    ensures ok ==> stats.Valid(start, c.imported, failed') && stats.considered == old(stats.considered) + 1
    ensures ok ==> stats.requests <= old(stats.requests) + 1
    ensures ok ==> stats.imported == old(stats.imported) + if got then 1 else 0
  {
    ok, known', got, failed' := false, known, false, failed;
    if !w.readable(hour) {
      return;
    }
    if hour in c.imported {
      stats.CountSkipped(start, hour, c.imported, failed);
      ok := true;
      return;
    }
    var turn, events;
    turn, events, known' := ImportHour(w, c, hour, known);
    got := c.imported != old(c.imported);
    match turn {
      case Abort =>
      case HourFailed =>
        stats.CountFailed(start, hour, events, c.imported, failed);
        ok, failed' := true, failed + {hour};
      case Imported =>
        stats.CountImported(start, hour, events, old(c.imported), failed);
        ok := true;
    }
  }

  /** The store when the run began, and as the run has left it so far. */
  datatype Store = Store(rows: Rows, marked: set<int>, fetched: seq<int>)

  ghost predicate Ran(w: World, before: Store, now: Store, hours: seq<int>, start: int, stop: int) {
    && FetchesOk(before.fetched, now.fetched, before.marked, start, stop)
    && Marks(before.marked, now.marked, hours)
    && ImportsAll(w, hours, before.rows, now.rows)
  }

  lemma RanOneMore(w: World, before: Store, now: Store, next: Store, hours: seq<int>, start: int, hour: int, got: bool)
    requires Ran(w, before, now, hours, start, hour) && start <= hour
    requires next.fetched == now.fetched || (next.fetched == now.fetched + [hour] && hour !in now.marked)
    requires next.marked == if got then now.marked + {hour} else now.marked
    requires if got then w.archive(hour).ReadAll? && Imports(w.archive(hour).events, now.rows, next.rows) else next.rows == now.rows
    ensures Ran(w, before, next, if got then hours + [hour] else hours, start, hour + 1)
  {
    FetchOneMore(before.fetched, now.fetched, next.fetched, before.marked, start, hour);
    if got {
      MarkOneMore(before.marked, now.marked, hours, hour);
      ImportOneMore(w, hours, hour, before.rows, now.rows, next.rows);
    }
  }

  /** A run that failed at `hour` leaves what a run up to it would, apart from that hour: it may
      have been fetched and some of its rows applied, or all of it applied and marked. */
  ghost predicate Broke(w: World, before: Store, after: Store, hours: seq<int>, start: int, hour: int) {
    || Ran(w, before, after, hours, start, hour + 1)
    || exists now :: Ran(w, before, now, hours, start, hour) && BrokeAt(w, now, after, hour)
  }

  ghost predicate BrokeAt(w: World, now: Store, after: Store, hour: int) {
    && after.marked == now.marked
    && (after.fetched == now.fetched || (after.fetched == now.fetched + [hour] && hour !in now.marked))
    && (after.rows == now.rows || (w.archive(hour).ReadAll? && Partway(w.archive(hour).events, now.rows, after.rows)))
  }

  /** What any run does, completed or failed. */
  ghost predicate Went(w: World, before: Store, after: Store, hours: seq<int>, start: int, stop: int) {
    Ran(w, before, after, hours, start, stop) || Broke(w, before, after, hours, start, stop)
  }

  /** A run fetches only hours without a mark, none twice, and keeps every mark. */
  lemma RunFetches(w: World, before: Store, after: Store, hours: seq<int>, start: int, stop: int)
    requires start <= stop && Went(w, before, after, hours, start, stop)
    ensures FetchesOk(before.fetched, after.fetched, before.marked, start, stop + 1)
    ensures Marks(before.marked, after.marked, hours)
  {
    if Broke(w, before, after, hours, start, stop) && !Ran(w, before, after, hours, start, stop + 1) {
      var now :| Ran(w, before, now, hours, start, stop) && BrokeAt(w, now, after, stop);
      FetchOneMore(before.fetched, now.fetched, after.fetched, before.marked, start, stop);
    }
  }

  /** A marked hour is never fetched again, by the run that marked it or by a later one, however
      either ends. */
  lemma MarkedHoursStayDone(w: World, a: Store, b: Store, hours: seq<int>, start: int, stop: int, v: World, c: Store,
                            later: seq<int>, from: int, to: int, h: int)
    requires start <= stop && Went(w, a, b, hours, start, stop)
    requires from <= to && Went(v, b, c, later, from, to)
    requires h in a.marked || h in hours
    ensures h in b.marked && h in c.marked
    ensures forall i :: |b.fetched| <= i < |c.fetched| ==> c.fetched[i] != h
    ensures h in a.marked ==> forall i :: |a.fetched| <= i < |b.fetched| ==> b.fetched[i] != h
  {
    RunFetches(w, a, b, hours, start, stop);
    RunFetches(v, b, c, later, from, to);
  }

  lemma BrokeBetween(w: World, before: Store, now: Store, hours: seq<int>, start: int, hour: int)
    requires Ran(w, before, now, hours, start, hour)
    ensures Broke(w, before, now, hours, start, hour)
  {
    assert BrokeAt(w, now, now, hour);
  }

  /** The hour loop, without error: every hour before `stop` was looked at once and counted, the
      budget holds, hours are fetched only when unmarked and at most once, and the rows are those
      at the start with exactly the newly marked hours applied in turn. */
  method Crawl(w: World, c: Corpus, start: int, end: int, budget: nat)
    returns (out: CrawlEnd, stats: Stats, ghost hours: seq<int>, ghost failed: set<int>)
    modifies c
    ensures fresh(stats)
    ensures out.Failed? ==> (exists h :: w.over(h)) || (exists h :: !w.readable(h)) || exists k :: !c.faults(k).Landed?
    ensures out.Failed? ==> exists hour :: start <= hour <= end && Broke(w, old(c.Now()), c.Now(), hours, start, hour)
    ensures out.Completed? ==>
              && Ran(w, old(c.Now()), c.Now(), hours, start, start + stats.considered)
              && stats.Valid(start, c.imported, failed) && stats.requests <= budget && stats.imported == |hours|
              && (start + stats.considered == (if start <= end then end + 1 else start)
                  || (start + stats.considered <= end && stats.requests == budget))
  {
    stats := new Stats();
    var known: set<Ref> := {};
    hours, failed := [], {};
    var hour := start;
    while hour <= end
      invariant hour == start + stats.considered && (hour <= end + 1 || hour == start)
      invariant fresh(stats) && stats.requests <= budget
      invariant stats.Valid(start, c.imported, failed) && stats.imported == |hours|
      invariant Ran(w, old(c.Now()), c.Now(), hours, start, hour)
    {
      ghost var now, got := c.Now(), false;
      if w.over(hour) {
        BrokeBetween(w, old(c.Now()), now, hours, start, hour);
        return Failed, stats, hours, failed;
      }
      if stats.requests >= budget {
        break;
      }
      var ok;
      ok, known, got, failed := VisitHour(w, c, stats, start, hour, known, failed);
      if ok || got {
        RanOneMore(w, old(c.Now()), now, c.Now(), hours, start, hour, got);
        hours := if got then hours + [hour] else hours;
      }
      if !ok {
        assert !got ==> BrokeAt(w, now, c.Now(), hour);
        assert Broke(w, old(c.Now()), c.Now(), hours, start, hour);
        return Failed, stats, hours, failed;
      }
      hour := hour + 1;
    }
    out := Completed;
  }
}
