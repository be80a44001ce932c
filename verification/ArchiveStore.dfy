/** What one archive hour does to the stored repositories and threads: the merge rules and
    flushArchiveHour of internal/app/discovery.go over the upserts of
    internal/corpus/observations.go. Archive facts carry no source time, so they are weak: a row
    with a source time is authoritative. */
module ArchiveStore {
  import opened Options
  import opened Decimal
  import opened Text

  datatype Ref = Ref(owner: string, repo: string)

  datatype Kind = Issue | PullRequest

  datatype ThreadKey = ThreadKey(ref: Ref, kind: Kind, number: int)

  datatype ThreadState = Unset | Open | Closed

  datatype Merge = Unknown | Unmerged | Merged(at: nat)

  /** `updated` is the source time, zero for a weak row; `rest` stands for the columns archive
      facts never touch. */
  datatype Repository = Repository(externalId: string, rest: int, updated: nat)

  datatype Thread = Thread(state: ThreadState, title: string, author: string, merge: Merge, rest: int, updated: nat)

  /** A thread-less signal has number 0. */
  datatype Signal = Signal(
    repo: Ref,
    repoId: nat,
    kind: Kind,
    number: int,
    action: string,
    state: ThreadState,
    title: string,
    author: string,
    merged: bool)
  {
    function Key(): ThreadKey {
      ThreadKey(repo, kind, number)
    }
  }

  function Lower(s: string): string {
    seq(|s|, i requires 0 <= i < |s| => LowerChar(s[i]))
  }

  /** The state an event's action implies. */
  function Implied(action: string): ThreadState {
    if Lower(action) in {"opened", "reopened"} then Open
    else if Lower(action) == "closed" then Closed
    else Unset
  }

  function MergeRepo(sig: Signal, existing: Option<Repository>): Repository {
    match existing
    case None => Repository(Itoa(sig.repoId), 0, 0)
    case Some(r) =>
      if r.updated > 0 || sig.repoId == 0 then r.(updated := 0)
      else r.(externalId := Itoa(sig.repoId), updated := 0)
  }

  /** None: the signal does not say enough to represent the thread. */
  function MergeThread(sig: Signal, existing: Option<Thread>): Option<Thread> {
    if existing.Some? && existing.value.updated > 0 then Some(existing.value.(updated := 0))
    else
      var t := if existing.Some? then existing.value else Thread(Unset, "", "", Unknown, 0, 0);
      var state := if sig.state != Unset then sig.state else if t.state != Unset then t.state else Implied(sig.action);
      if state == Unset then None
      else
        Some(t.(state := state,
                title := if sig.title != "" then sig.title else t.title,
                author := if sig.author != "" then sig.author else t.author,
                merge := if sig.kind.PullRequest? && sig.merged then Merged(0) else t.merge,
                updated := 0))
  }

  /** UpsertRepository and UpsertThread for a projection without source time: an existing row is
      only rewritten when it has none either. */
  function UpsertRepo(row: Option<Repository>, r: Repository): Repository {
    if row.Some? && row.value.updated > 0 then row.value else r
  }

  function UpsertThread(row: Option<Thread>, t: Thread): Thread {
    if row.Some? && row.value.updated > 0 then row.value
    else if row.Some? && t.merge.Unknown? then t.(merge := row.value.merge)
    else t
  }

  function RepoStep(sig: Signal, row: Option<Repository>): Option<Repository> {
    Some(UpsertRepo(row, MergeRepo(sig, row)))
  }

  function ThreadStep(sig: Signal, row: Option<Thread>): Option<Thread> {
    var t := MergeThread(sig, row);
    if t.None? then row else Some(UpsertThread(row, t.value))
  }

  /** Applying a signal again changes nothing more. */
  lemma StepsIdempotent(sig: Signal, r: Option<Repository>, t: Option<Thread>)
    ensures RepoStep(sig, RepoStep(sig, r)) == RepoStep(sig, r)
    ensures ThreadStep(sig, ThreadStep(sig, t)) == ThreadStep(sig, t)
  {
  }

  /** Archive facts never change an authoritative row or a column they know nothing about, never
      remove a row, never lose a merge, a title or an author to silence, and leave no thread
      without a state that had one. */
  lemma StepsPreserve(sig: Signal, r: Option<Repository>, t: Option<Thread>)
    ensures r.Some? && r.value.updated > 0 ==> RepoStep(sig, r) == r
    ensures t.Some? && t.value.updated > 0 ==> ThreadStep(sig, t) == t
    ensures r.Some? ==> RepoStep(sig, r).value.rest == r.value.rest
    ensures r.Some? && sig.repoId == 0 ==> RepoStep(sig, r).value.externalId == r.value.externalId
    ensures t.Some? ==> ThreadStep(sig, t).Some? && ThreadStep(sig, t).value.rest == t.value.rest
    ensures t.Some? && sig.title == "" ==> ThreadStep(sig, t).value.title == t.value.title
    ensures t.Some? && sig.author == "" ==> ThreadStep(sig, t).value.author == t.value.author
    ensures t.Some? && t.value.merge.Merged? ==> ThreadStep(sig, t).value.merge.Merged?
    ensures t.None? && ThreadStep(sig, t).Some? ==> !ThreadStep(sig, t).value.state.Unset?
    ensures t.Some? && !t.value.state.Unset? ==> !ThreadStep(sig, t).value.state.Unset?
    ensures ThreadStep(sig, t).None? <==> t.None? && sig.state == Unset && Implied(sig.action) == Unset
  {
  }

  /** What a signal makes of a thread that is not stored yet: an explicit state counts, otherwise
      the one its action implies, whatever the action's letter case. */
  lemma NewThread(sig: Signal, action: string)
    requires Lower(sig.action) == action
    ensures sig.state != Unset || action in {"opened", "reopened", "closed"} <==> ThreadStep(sig, None).Some?
    ensures ThreadStep(sig, None).Some? ==>
              var t := ThreadStep(sig, None).value;
              && t.state == (if sig.state != Unset then sig.state else if action == "closed" then Closed else Open)
              && t.title == sig.title && t.author == sig.author && t.updated == 0
              && t.merge == (if sig.kind == PullRequest && sig.merged then Merged(0) else Unknown)
  {
  }

  /** What a signal makes of a weak row: what it says replaces what was there, what it leaves open
      stays, and the row stays weak. */
  lemma WeakRows(sig: Signal, r: Repository, t: Thread)
    requires r.updated == 0 && t.updated == 0 && t.state != Unset
    ensures Digits(RepoStep(sig, None).value.externalId) == Some(sig.repoId)
    ensures sig.repoId > 0 ==> Digits(RepoStep(sig, Some(r)).value.externalId) == Some(sig.repoId)
    ensures RepoStep(sig, Some(r)).value.updated == 0
    ensures var t' := ThreadStep(sig, Some(t)).value;
            && (sig.state != Unset ==> t'.state == sig.state) && (sig.state == Unset ==> t'.state == t.state)
            && (sig.title != "" ==> t'.title == sig.title) && (sig.author != "" ==> t'.author == sig.author)
            && (sig.kind == PullRequest && sig.merged ==> t'.merge == Merged(0))
            && (sig.kind == Issue || !sig.merged ==> t'.merge == t.merge) && t'.updated == 0
  {
    DigitsOfItoa(sig.repoId);
  }

  /** On weak rows the last hour imported wins, not the latest hour: importing an earlier hour
      afterwards, as a run does with an hour that failed before, brings its state back. */
  lemma LateHourOverwrites(earlier: Signal, later: Signal, t: Option<Thread>)
    requires t.None? || t.value.updated == 0
    requires earlier.state != Unset && later.state != Unset
    ensures ThreadStep(later, ThreadStep(earlier, t)).value.state == later.state
    ensures ThreadStep(earlier, ThreadStep(later, t)).value.state == earlier.state
    ensures earlier.state != later.state ==>
              ThreadStep(earlier, ThreadStep(later, t)) != ThreadStep(later, ThreadStep(earlier, t))
  {
  }

  // ---------------------------------------------------------------------------
  // When the order of two hours does not matter
  // ---------------------------------------------------------------------------

  /** The signal says enough to represent the thread, given the row it finds. */
  predicate Speaks(sig: Signal, row: Option<Thread>) {
    sig.state != Unset || (row.Some? && row.value.state != Unset) || Implied(sig.action) != Unset
  }

  predicate Agree(a: string, b: string) {
    a == "" || b == "" || a == b
  }

  /** Of two signals that both represent the thread: on a row with a state only explicit states
      compete; on one without, the first to arrive also sets the state its action implies. */
  predicate StatesAgree(a: Signal, b: Signal, row: Option<Thread>) {
    if row.Some? && row.value.state != Unset then a.state == Unset || b.state == Unset || a.state == b.state
    else if a.state == Unset && b.state == Unset then Implied(a.action) == Implied(b.action)
    else a.state == Unset || b.state == Unset || a.state == b.state
  }

  /** A signal that represents nothing by itself has nothing to add once the other one has. */
  predicate AddsNothing(silent: Signal, speaker: Signal, row: Option<Thread>) {
    && silent.title in {"", if speaker.title != "" || row.None? then speaker.title else row.value.title}
    && silent.author in {"", if speaker.author != "" || row.None? then speaker.author else row.value.author}
    && (silent.kind.PullRequest? && silent.merged ==> speaker.merged || (row.Some? && row.value.merge == Merged(0)))
  }

  predicate ThreadOrderFree(a: Signal, b: Signal, row: Option<Thread>) {
    if row.Some? && row.value.updated > 0 then true
    else if Speaks(a, row) && Speaks(b, row) then
      StatesAgree(a, b, row) && Agree(a.title, b.title) && Agree(a.author, b.author)
    else if Speaks(a, row) then AddsNothing(b, a, row)
    else if Speaks(b, row) then AddsNothing(a, b, row)
    else true
  }

  lemma BothSpeakOrder(a: Signal, b: Signal, row: Option<Thread>)
    requires a.kind == b.kind && Speaks(a, row) && Speaks(b, row) && (row.Some? ==> row.value.updated == 0)
    ensures ThreadStep(a, ThreadStep(b, row)) == ThreadStep(b, ThreadStep(a, row)) <==>
            StatesAgree(a, b, row) && Agree(a.title, b.title) && Agree(a.author, b.author)
  {
    if row.Some? && row.value.state != Unset {
      OrderOnState(a, b, row.value);
    } else if a.state == Unset && b.state == Unset {
      OrderOfImplied(a, b, row);
    } else if a.state != Unset && b.state != Unset {
      OrderOfStates(a, b, row);
    } else if a.state != Unset {
      OrderOfStateAndImplied(a, b, row);
    } else {
      OrderOfStateAndImplied(b, a, row);
    }
  }

  lemma OrderOfStates(a: Signal, b: Signal, row: Option<Thread>)
    requires a.kind == b.kind && a.state != Unset && b.state != Unset
    requires row.Some? ==> row.value.updated == 0 && row.value.state == Unset
    ensures ThreadStep(a, ThreadStep(b, row)) == ThreadStep(b, ThreadStep(a, row)) <==>
            a.state == b.state && Agree(a.title, b.title) && Agree(a.author, b.author)
  {
  }

  lemma OrderOfStateAndImplied(a: Signal, b: Signal, row: Option<Thread>)
    requires a.kind == b.kind && a.state != Unset && b.state == Unset && Implied(b.action) != Unset
    requires row.Some? ==> row.value.updated == 0 && row.value.state == Unset
    ensures ThreadStep(a, ThreadStep(b, row)) == ThreadStep(b, ThreadStep(a, row)) <==>
            Agree(a.title, b.title) && Agree(a.author, b.author)
  {
  }

  lemma OrderOfImplied(a: Signal, b: Signal, row: Option<Thread>)
    requires a.kind == b.kind && Speaks(a, row) && Speaks(b, row) && a.state == Unset && b.state == Unset
    requires row.Some? ==> row.value.updated == 0 && row.value.state == Unset
    ensures ThreadStep(a, ThreadStep(b, row)) == ThreadStep(b, ThreadStep(a, row)) <==>
            Implied(a.action) == Implied(b.action) && Agree(a.title, b.title) && Agree(a.author, b.author)
  {
  }

  lemma OrderOnState(a: Signal, b: Signal, t: Thread)
    requires a.kind == b.kind && t.updated == 0 && t.state != Unset
    ensures ThreadStep(a, ThreadStep(b, Some(t))) == ThreadStep(b, ThreadStep(a, Some(t))) <==>
            StatesAgree(a, b, Some(t)) && Agree(a.title, b.title) && Agree(a.author, b.author)
  {
  }

  lemma OneSpeaksOrder(speaker: Signal, silent: Signal, row: Option<Thread>)
    requires speaker.kind == silent.kind && Speaks(speaker, row) && !Speaks(silent, row)
    requires row.Some? ==> row.value.updated == 0
    ensures ThreadStep(speaker, ThreadStep(silent, row)) == ThreadStep(silent, ThreadStep(speaker, row)) <==>
            AddsNothing(silent, speaker, row)
  {
  }

  /** Two signals for one thread leave the same row in either order if and only if the row is
      authoritative or they do not compete for its state, title, author or merge. */
  lemma ThreadOrderIff(a: Signal, b: Signal, row: Option<Thread>)
    requires a.kind == b.kind
    ensures ThreadStep(a, ThreadStep(b, row)) == ThreadStep(b, ThreadStep(a, row)) <==> ThreadOrderFree(a, b, row)
  {
    if row.Some? && row.value.updated > 0 {
      StepsPreserve(a, None, row);
      StepsPreserve(b, None, row);
    } else if Speaks(a, row) && Speaks(b, row) {
      BothSpeakOrder(a, b, row);
    } else if Speaks(a, row) {
      OneSpeaksOrder(a, b, row);
    } else if Speaks(b, row) {
      OneSpeaksOrder(b, a, row);
    }
  }

  predicate RepoOrderFree(a: Signal, b: Signal, row: Option<Repository>) {
    (row.Some? && row.value.updated > 0) || a.repoId == 0 || b.repoId == 0 || a.repoId == b.repoId
  }

  lemma RepoOrderIff(a: Signal, b: Signal, row: Option<Repository>)
    ensures RepoStep(a, RepoStep(b, row)) == RepoStep(b, RepoStep(a, row)) <==> RepoOrderFree(a, b, row)
  {
    DigitsOfItoa(a.repoId);
    DigitsOfItoa(b.repoId);
  }

  // ---------------------------------------------------------------------------
  // One hour
  // ---------------------------------------------------------------------------

  datatype Hour = Hour(repos: map<Ref, Signal>, threads: map<ThreadKey, Signal>) {
    /** Every signal is filed under its own key, and every thread's repository is among the
        hour's repositories. */
    ghost predicate Valid() {
      forall k :: k in threads ==> k.ref in repos && threads[k].Key() == k
    }
  }

  /** The last event of the stream that names the repository, or the thread. */
  function LastOf(events: seq<Signal>, ref: Ref): Option<Signal> {
    if events == [] then None
    else if events[|events| - 1].repo == ref then Some(events[|events| - 1])
    else LastOf(events[..|events| - 1], ref)
  }

  function LastOfThread(events: seq<Signal>, key: ThreadKey): Option<Signal> {
    if events == [] then None
    else if events[|events| - 1].number > 0 && events[|events| - 1].Key() == key then Some(events[|events| - 1])
    else LastOfThread(events[..|events| - 1], key)
  }

  lemma {:induction false} LastOfIsLast(events: seq<Signal>, ref: Ref)
    ensures match LastOf(events, ref)
            case None => forall i :: 0 <= i < |events| ==> events[i].repo != ref
            case Some(sig) =>
              exists i :: 0 <= i < |events| && events[i] == sig && sig.repo == ref
                          && forall j :: i < j < |events| ==> events[j].repo != ref
  {
    if events != [] && events[|events| - 1].repo != ref {
      LastOfIsLast(events[..|events| - 1], ref);
    }
  }

  lemma {:induction false} LastOfThreadIsLast(events: seq<Signal>, key: ThreadKey)
    ensures match LastOfThread(events, key)
            case None => forall i :: 0 <= i < |events| ==> events[i].number <= 0 || events[i].Key() != key
            case Some(sig) =>
              exists i :: 0 <= i < |events| && events[i] == sig && sig.number > 0 && sig.Key() == key
                          && forall j :: i < j < |events| ==> events[j].number <= 0 || events[j].Key() != key
  {
    var n := |events| - 1;
    if events != [] && !(events[n].number > 0 && events[n].Key() == key) {
      LastOfThreadIsLast(events[..n], key);
    }
  }

  function Get<K, V>(m: map<K, V>, k: K): Option<V> {
    if k in m then Some(m[k]) else None
  }

  /** What the read callback gathers from an hour's events. */
  method Gather(events: seq<Signal>) returns (hour: Hour)
    ensures hour.Valid()
    ensures forall ref :: Get(hour.repos, ref) == LastOf(events, ref)
    ensures forall key :: Get(hour.threads, key) == LastOfThread(events, key)
  {
    hour := Hour(map[], map[]);
    for i := 0 to |events|
      invariant hour.Valid()
      invariant forall ref :: Get(hour.repos, ref) == LastOf(events[..i], ref)
      invariant forall key :: Get(hour.threads, key) == LastOfThread(events[..i], key)
    {
      var sig := events[i];
      assert events[..i + 1][..i] == events[..i];
      hour := hour.(repos := hour.repos[sig.repo := sig]);
      if sig.number > 0 {
        hour := hour.(threads := hour.threads[sig.Key() := sig]);
      }
    }
    assert events[..|events|] == events;
  }

  datatype Rows = Rows(repos: map<Ref, Repository>, threads: map<ThreadKey, Thread>)

  function RepoAfter(hour: Hour, rows: Rows, ref: Ref): Option<Repository> {
    if ref in hour.repos then RepoStep(hour.repos[ref], Get(rows.repos, ref)) else Get(rows.repos, ref)
  }

  function ThreadAfter(hour: Hour, rows: Rows, key: ThreadKey): Option<Thread> {
    if key in hour.threads then ThreadStep(hour.threads[key], Get(rows.threads, key)) else Get(rows.threads, key)
  }

  /** `after` is `before` with the whole hour applied. */
  ghost predicate Flushed(hour: Hour, before: Rows, after: Rows) {
    && (forall ref :: Get(after.repos, ref) == RepoAfter(hour, before, ref))
    && (forall key :: Get(after.threads, key) == ThreadAfter(hour, before, key))
  }

  /** Some of the hour's rows are applied, the others untouched. */
  ghost predicate Partly(hour: Hour, before: Rows, after: Rows) {
    && (forall ref :: Get(after.repos, ref) in {Get(before.repos, ref), RepoAfter(hour, before, ref)})
    && (forall key :: Get(after.threads, key) in {Get(before.threads, key), ThreadAfter(hour, before, key)})
  }

  /** An import interrupted anywhere and started over ends in the same rows as one that was not
      interrupted. */
  lemma InterruptedImportResumes(hour: Hour, before: Rows, middle: Rows, after: Rows)
    requires Partly(hour, before, middle) && Flushed(hour, middle, after)
    ensures Flushed(hour, before, after)
  {
    forall ref
      ensures Get(after.repos, ref) == RepoAfter(hour, before, ref)
    {
      assert Get(after.repos, ref) == RepoAfter(hour, middle, ref);
      if ref in hour.repos {
        StepsIdempotent(hour.repos[ref], Get(before.repos, ref), None);
      }
    }
    forall key
      ensures Get(after.threads, key) == ThreadAfter(hour, before, key)
    {
      assert Get(after.threads, key) == ThreadAfter(hour, middle, key);
      if key in hour.threads {
        StepsIdempotent(hour.threads[key], None, Get(before.threads, key));
      }
    }
  }

  /** The hour determines the rows: the order of the upserts does not matter. */
  lemma FlushedIsFunction(hour: Hour, before: Rows, a: Rows, b: Rows)
    requires Flushed(hour, before, a) && Flushed(hour, before, b)
    ensures a == b
  {
    forall ref
      ensures Get(a.repos, ref) == Get(b.repos, ref)
    {
    }
    forall key
      ensures Get(a.threads, key) == Get(b.threads, key)
    {
    }
    SameMaps(a.repos, b.repos);
    SameMaps(a.threads, b.threads);
  }

  /** Two hours leave the same rows in either order if and only if they do so for every
      repository and every thread that both name. */
  lemma HourOrderIff(a: Hour, b: Hour, start: Rows, viaA: Rows, ab: Rows, viaB: Rows, ba: Rows)
    requires a.Valid() && b.Valid()
    requires Flushed(a, start, viaA) && Flushed(b, viaA, ab) && Flushed(b, start, viaB) && Flushed(a, viaB, ba)
    ensures ab == ba <==>
            && (forall ref :: ref in a.repos && ref in b.repos ==> RepoOrderFree(a.repos[ref], b.repos[ref], Get(start.repos, ref)))
            && (forall key :: key in a.threads && key in b.threads ==>
                  ThreadOrderFree(a.threads[key], b.threads[key], Get(start.threads, key)))
  {
    forall ref
      ensures Get(ab.repos, ref) == Get(ba.repos, ref) <==>
              (ref in a.repos && ref in b.repos ==> RepoOrderFree(a.repos[ref], b.repos[ref], Get(start.repos, ref)))
    {
      RepoRowOrder(a, b, start, viaA, ab, viaB, ba, ref);
    }
    forall key
      ensures Get(ab.threads, key) == Get(ba.threads, key) <==>
              (key in a.threads && key in b.threads ==>
                 ThreadOrderFree(a.threads[key], b.threads[key], Get(start.threads, key)))
    {
      ThreadRowOrder(a, b, start, viaA, ab, viaB, ba, key);
    }
    if (forall ref :: Get(ab.repos, ref) == Get(ba.repos, ref)) && forall key :: Get(ab.threads, key) == Get(ba.threads, key) {
      SameMaps(ab.repos, ba.repos);
      SameMaps(ab.threads, ba.threads);
    }
  }

  lemma RepoRowOrder(a: Hour, b: Hour, start: Rows, viaA: Rows, ab: Rows, viaB: Rows, ba: Rows, ref: Ref)
    requires Flushed(a, start, viaA) && Flushed(b, viaA, ab) && Flushed(b, start, viaB) && Flushed(a, viaB, ba)
    ensures Get(ab.repos, ref) == Get(ba.repos, ref) <==>
            (ref in a.repos && ref in b.repos ==> RepoOrderFree(a.repos[ref], b.repos[ref], Get(start.repos, ref)))
  {
    assert Get(ab.repos, ref) == RepoAfter(b, viaA, ref) && Get(viaA.repos, ref) == RepoAfter(a, start, ref);
    assert Get(ba.repos, ref) == RepoAfter(a, viaB, ref) && Get(viaB.repos, ref) == RepoAfter(b, start, ref);
    if ref in a.repos && ref in b.repos {
      RepoOrderIff(a.repos[ref], b.repos[ref], Get(start.repos, ref));
    }
  }

  lemma ThreadRowOrder(a: Hour, b: Hour, start: Rows, viaA: Rows, ab: Rows, viaB: Rows, ba: Rows, key: ThreadKey)
    requires a.Valid() && b.Valid()
    requires Flushed(a, start, viaA) && Flushed(b, viaA, ab) && Flushed(b, start, viaB) && Flushed(a, viaB, ba)
    ensures Get(ab.threads, key) == Get(ba.threads, key) <==>
            (key in a.threads && key in b.threads ==>
               ThreadOrderFree(a.threads[key], b.threads[key], Get(start.threads, key)))
  {
    assert Get(ab.threads, key) == ThreadAfter(b, viaA, key) && Get(viaA.threads, key) == ThreadAfter(a, start, key);
    assert Get(ba.threads, key) == ThreadAfter(a, viaB, key) && Get(viaB.threads, key) == ThreadAfter(b, start, key);
    if key in a.threads && key in b.threads {
      ThreadOrderIff(a.threads[key], b.threads[key], Get(start.threads, key));
    }
  }

  lemma SameMaps<K(!new), V>(a: map<K, V>, b: map<K, V>)
    requires forall k :: Get(a, k) == Get(b, k)
    ensures a == b
  {
    forall k
      ensures k in a <==> k in b
      ensures k in a ==> a[k] == b[k]
    {
      assert Get(a, k) == Get(b, k);
    }
  }
}
