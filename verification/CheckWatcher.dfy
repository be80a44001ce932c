/** The pull-request check watcher: poll one exact head until its checks are finished, confirm
    twice, then replace the stored check facet (waitPullRequestChecks in
    internal/app/mcp_pr_check_wait.go). Time enters only as a deadline that may have passed. */
module CheckWatcher {
  import opened Options
  import opened FacetStore
  import opened CommitSha
  import opened Text
  import opened Checks

  const MAX_POLLS := 10000

  /** `current` recognises the texts that name the expected head. */
  datatype Watch = Watch(current: string -> bool, failFast: bool)

  function WatchHead(sha: seq<Byte>, failFast: bool): Watch {
    Watch(text => Matches(sha, text), failFast)
  }

  datatype Observation = Observation(head: string, checks: seq<Check>, complete: bool, updated: nat)

  datatype Fault = DeadlineExceeded | OtherFault

  /** One read of the pull request. */
  datatype Reply = Seen(seen: Observation) | Broken(fault: Fault)

  /** Whether a write fails before the checks are stored, or afterwards, the checks' own write
      after its commit included. */
  datatype StoreFault = NoFault | FailsBefore | FailsAfter

  /** GitHub and the corpus as one watch meets them. `replies(k)` answers its k-th read,
      `context(k)` is the watch context at the head of poll k, `progress(k)` whether the report
      after poll k is accepted. `others` is what other writers do to the check facet between
      the baseline and the write; `threadUpdated` stands in for a missing source time. */
  datatype World = World(
    replies: nat -> Reply,
    context: nat -> Option<Fault>,
    progress: nat -> bool,
    baselineOk: bool,
    others: Facet -> Facet,
    store: StoreFault,
    threadUpdated: nat,
    marshal: seq<Check> -> string)
  {
    function WriteOf(o: Observation): Write {
      var updated := if o.updated == 0 then threadUpdated else o.updated;
      Complete(updated, [Page(updated, marshal(o.checks), "")])
    }
  }

  datatype Status = Superseded | FailedChecks | IncompleteChecks | TimedOut | Succeeded

  datatype Result = Result(
    status: Status,
    polls: nat,
    checks: seq<Check>,
    transitions: seq<Signature>,
    truncated: bool,
    persisted: bool)

  /** Error is the failure of the job itself. */
  datatype Outcome = Reported(result: Result) | Error

  class Backend {
    const world: World
    var readCount: nat
    var writeCount: nat
    var facet: Facet

    constructor (world: World, facet: Facet)
      ensures this.world == world && this.facet == facet && readCount == writeCount == 0
    {
      this.world, this.facet, this.readCount, this.writeCount := world, facet, 0, 0;
    }

    method GetStatus() returns (reply: Reply)
      modifies this`readCount
      ensures readCount == old(readCount) + 1 && reply == world.replies(readCount)
    {
      readCount := readCount + 1;
      reply := world.replies(readCount);
    }

    /** persistPullRequestHealth as far as the check facet goes. A refused compare-and-swap is
        not an error. */
    method Persist(o: Observation, baseline: nat) returns (ok: bool)
      modifies this`writeCount, this`facet
      ensures writeCount == old(writeCount) + 1 && (ok <==> world.store.NoFault?)
      ensures facet == Replaced(world, old(facet), o, baseline)
    {
      writeCount := writeCount + 1;
      facet := world.others(facet);
      if world.store.FailsBefore? {
        return false;
      }
      var (after, _) := Cas(facet, world.WriteOf(o), baseline);
      facet := after;
      ok := world.store.NoFault?;
    }
  }

  function Replaced(e: World, f: Facet, o: Observation, baseline: nat): Facet {
    if e.store.FailsBefore? then e.others(f) else Cas(e.others(f), e.WriteOf(o), baseline).0
  }

  // ---------------------------------------------------------------------------
  // What the reads say
  // ---------------------------------------------------------------------------

  ghost predicate Current(w: Watch, reply: Reply) {
    reply.Seen? && w.current(reply.seen.head)
  }

  ghost predicate Moved(w: Watch, reply: Reply) {
    reply.Seen? && !w.current(reply.seen.head)
  }

  ghost predicate Finished(o: Observation) {
    o.complete && AllTerminal(o.checks)
  }

  /** Fail-fast ends the watch on a failed check of a set that is not yet complete and final. */
  ghost predicate FailsFast(w: Watch, o: Observation) {
    w.failFast && HasFailed(o.checks) && !Finished(o)
  }

  /** A read the watch keeps polling after. */
  ghost predicate Undecided(w: Watch, reply: Reply) {
    Current(w, reply) && !FailsFast(w, reply.seen) && !Finished(reply.seen)
  }

  /** A read of the expected head with a complete set of finished checks. */
  ghost predicate Confirms(w: Watch, reply: Reply) {
    Current(w, reply) && Finished(reply.seen)
  }

  /** What the first n polls contribute to the signature history. */
  ghost function History(w: Watch, e: World, n: nat): seq<Signature> {
    if n == 0 then []
    else if Current(w, e.replies(n)) && e.replies(n).seen.complete && !FailsFast(w, e.replies(n).seen) then
      History(w, e, n - 1) + [e.replies(n).seen.checks]
    else History(w, e, n - 1)
  }

  /** The guard at the head of an iteration already covers the second fail-fast return. */
  lemma SecondFailFastUnreachable(w: Watch, o: Observation)
    requires !FailsFast(w, o) && o.complete
    requires AllTerminal(o.checks) || (w.failFast && HasFailed(o.checks))
    ensures AllTerminal(o.checks)
  {
  }

  // ---------------------------------------------------------------------------
  // The watch
  // ---------------------------------------------------------------------------

  /** The two reads after the decisive poll n, and the write they allow. */
  ghost predicate Written(w: Watch, e: World, n: nat) {
    Confirms(w, e.replies(n + 1)) && e.baselineOk && Confirms(w, e.replies(n + 2))
  }

  /** The first confirming read that does not confirm. */
  ghost function Breaker(w: Watch, e: World, n: nat): Option<Reply> {
    if !Confirms(w, e.replies(n + 1)) then Some(e.replies(n + 1))
    else if e.baselineOk && !Confirms(w, e.replies(n + 2)) then Some(e.replies(n + 2))
    else None
  }

  /** The checks an answer carries: those of the last read that got so far. */
  ghost function ReportedChecks(w: Watch, e: World, n: nat): seq<Check> {
    if n == 0 || !Current(w, e.replies(n)) then []
    else if Confirms(w, e.replies(n)) then ConfirmedChecks(w, e, n)
    else if FailsFast(w, e.replies(n).seen) then e.replies(n).seen.checks
    else []
  }

  ghost function ConfirmedChecks(w: Watch, e: World, n: nat): seq<Check>
    requires e.replies(n).Seen?
  {
    if !Confirms(w, e.replies(n + 1)) then e.replies(n).seen.checks
    else if !Written(w, e, n) then e.replies(n + 1).seen.checks
    else e.replies(n + 2).seen.checks
  }

  ghost predicate ConfirmedStatus(w: Watch, e: World, n: nat, status: Status, persisted: bool) {
    && (persisted <==> Written(w, e, n) && e.store.NoFault?)
    && (status.Succeeded? <==> persisted && !HasFailed(e.replies(n + 2).seen.checks))
    && (status.FailedChecks? <==> persisted && HasFailed(e.replies(n + 2).seen.checks))
    && (status.Superseded? <==> Breaker(w, e, n).Some? && Moved(w, Breaker(w, e, n).value))
    && (status.TimedOut? <==> Breaker(w, e, n) == Some(Broken(DeadlineExceeded)))
  }

  /** The end of a watch whose poll n saw a complete finished set. `r` is its result so far. */
  method Confirm(w: Watch, b: Backend, r: Result) returns (out: Outcome)
    requires r.polls == b.readCount && !r.persisted
    requires b.world.replies(r.polls).Seen? && r.checks == b.world.replies(r.polls).seen.checks
    modifies b
    ensures b.readCount <= old(b.readCount) + 2
    ensures out.Error? <==> Breaker(w, b.world, r.polls) == Some(Broken(OtherFault))
    ensures out.Reported? ==>
              && out.result == r.(status := out.result.status, persisted := out.result.persisted, checks := out.result.checks)
              && ConfirmedStatus(w, b.world, r.polls, out.result.status, out.result.persisted)
              && out.result.checks == ConfirmedChecks(w, b.world, r.polls)
    ensures b.writeCount == old(b.writeCount) + if Written(w, b.world, r.polls) then 1 else 0
    ensures b.facet == if Written(w, b.world, r.polls)
                       then Replaced(b.world, old(b.facet), b.world.replies(r.polls + 2).seen, old(b.facet).Baseline())
                       else old(b.facet)
  {
    var latest := b.GetStatus();
    out := Rejected(w, r, latest);
    var allTerminal := false;
    if latest.Seen? {
      allTerminal := ChecksAllTerminal(latest.seen.checks);
    }
    if latest.Broken? || !w.current(latest.seen.head) {
      return;
    }
    if !latest.seen.complete || !allTerminal {
      return Reported(r.(status := IncompleteChecks));
    }
    assert Confirms(w, latest);
    if !b.world.baselineOk {
      return Reported(r.(status := IncompleteChecks, checks := latest.seen.checks));
    }
    var baseline := b.facet.Baseline();
    var final := b.GetStatus();
    out := Rejected(w, r.(checks := latest.seen.checks), final);
    if final.Broken? || !w.current(final.seen.head) {
      return;
    }
    allTerminal := ChecksAllTerminal(final.seen.checks);
    if !final.seen.complete || !allTerminal {
      return Reported(r.(status := IncompleteChecks, checks := latest.seen.checks));
    }
    var failed := ChecksHasFailed(final.seen.checks);
    var ok := b.Persist(final.seen, baseline);
    var status := if !ok then IncompleteChecks else if failed then FailedChecks else Succeeded;
    out := Reported(r.(status := status, persisted := ok, checks := final.seen.checks));
  }

  /** How a confirming read that failed or saw another head ends the watch. */
  function Rejected(w: Watch, r: Result, reply: Reply): Outcome {
    match reply
    case Broken(DeadlineExceeded) => Reported(r.(status := TimedOut))
    case Broken(OtherFault) => Error
    case Seen(_) => Reported(r.(status := Superseded))
  }

  /** Every poll up to the n-th was made in time, left the watch undecided, and was reported. */
  ghost predicate KeptWaiting(w: Watch, e: World, n: nat) {
    forall k: nat :: 1 <= k <= n ==> e.context(k).None? && Undecided(w, e.replies(k)) && e.progress(k)
  }

  ghost predicate DeadlineAt(e: World, k: nat) {
    e.context(k) == Some(DeadlineExceeded) || (e.context(k).None? && e.replies(k) == Broken(DeadlineExceeded))
  }

  /** What ends a watch that reports after n polls, for every status it can report. */
  ghost predicate Verdict(w: Watch, e: World, n: nat, status: Status, persisted: bool) {
    if status.TimedOut? && KeptWaiting(w, e, n) then
      !persisted && (n == MAX_POLLS || DeadlineAt(e, n + 1))
    else
      && n > 0 && KeptWaiting(w, e, n - 1) && e.context(n).None? && e.replies(n).Seen?
      && !Undecided(w, e.replies(n))
      && if Moved(w, e.replies(n)) then status.Superseded? && !persisted
         else if FailsFast(w, e.replies(n).seen) then status.FailedChecks? && !persisted
         else ConfirmedStatus(w, e, n, status, persisted)
  }

  ghost predicate Justified(w: Watch, e: World, r: Result) {
    && r.polls <= MAX_POLLS && Verdict(w, e, r.polls, r.status, r.persisted)
    && RecordsOk(r, History(w, e, r.polls))
    && r.checks == ReportedChecks(w, e, r.polls)
  }

  /** The outcome of one poll: go on, or stop with an answer. */
  datatype Next = Continue | Stop(outcome: Outcome)

  /** The first n polls are behind the watch and it is about to look at what the next one saw. */
  ghost predicate Looking(w: Watch, e: World, n: nat, o: Observation, history: seq<Signature>) {
    && n < MAX_POLLS && KeptWaiting(w, e, n) && e.context(n + 1).None? && e.replies(n + 1) == Seen(o)
    && history == History(w, e, n)
  }

  /** An answer given on the poll itself: another head, or a fail-fast failure. Nothing is written. */
  lemma AnsweredAtPoll(w: Watch, e: World, n: nat, o: Observation, history: seq<Signature>, r: Result, f: Facet)
    requires Looking(w, e, n, o, history)
    requires r.polls == n + 1 && !r.persisted && RecordsOk(r, history)
    requires if Moved(w, Seen(o)) then r.status.Superseded? && r.checks == []
             else FailsFast(w, o) && r.status.FailedChecks? && r.checks == o.checks
    ensures Justified(w, e, r) && Stored(w, e, n + 1, f, f, 0)
  {
  }

  /** An answer after the confirming reads. */
  lemma AnsweredAfterReads(w: Watch, e: World, n: nat, o: Observation, history: seq<Signature>, r: Result)
    requires Looking(w, e, n, o, history) && Confirms(w, Seen(o))
    requires r.polls == n + 1 && RecordsOk(r, history + [o.checks])
    requires ConfirmedStatus(w, e, n + 1, r.status, r.persisted)
    requires r.checks == ConfirmedChecks(w, e, n + 1)
    ensures Justified(w, e, r)
  {
    assert !KeptWaiting(w, e, n + 1) by {
      assert !Undecided(w, e.replies(n + 1));
    }
  }

  ghost predicate RecordsOk(r: Result, history: seq<Signature>) {
    r.transitions == Capped(Changes(history)) && (r.truncated <==> |Changes(history)| > MAX_TRANSITIONS)
  }

  /** The one write, made exactly when poll n and the two reads after it confirm. */
  ghost predicate Stored(w: Watch, e: World, n: nat, before: Facet, after: Facet, writes: nat) {
    var wrote := n > 0 && Confirms(w, e.replies(n)) && Written(w, e, n);
    && writes == (if wrote then 1 else 0)
    && after == (if wrote then Replaced(e, before, e.replies(n + 2).seen, before.Baseline()) else before)
  }

  /** After n polls that decided nothing, the context, a read or the report of the next one fails
      for another reason than the deadline. */
  ghost predicate FailsAt(w: Watch, e: World, n: nat) {
    && n < MAX_POLLS && KeptWaiting(w, e, n)
    && (|| e.context(n + 1) == Some(OtherFault)
        || (e.context(n + 1).None? && e.replies(n + 1) == Broken(OtherFault))
        || (e.context(n + 1).None? && Undecided(w, e.replies(n + 1)) && !e.progress(n + 1))
        || (e.context(n + 1).None? && Confirms(w, e.replies(n + 1)) && Breaker(w, e, n + 1) == Some(Broken(OtherFault))))
  }

  /** How a watch ends, and what it leaves in the store. */
  ghost predicate Ended(w: Watch, e: World, out: Outcome, before: Facet, after: Facet, writes: nat) {
    if out.Error? then after == before && writes == 0 && exists n: nat :: FailsAt(w, e, n)
    else Justified(w, e, out.result) && Stored(w, e, out.result.polls, before, after, writes)
  }

  /** The end of a watch whose next poll saw a complete finished set. */
  method Decide(w: Watch, b: Backend, n: nat, o: Observation, ghost history: seq<Signature>, r: Result)
    returns (out: Outcome)
    requires Looking(w, b.world, n, o, history) && Confirms(w, Seen(o)) && RecordsOk(r, history + [o.checks])
    requires r.polls == b.readCount == n + 1 && b.writeCount == 0 && !r.persisted && r.checks == o.checks
    modifies b
    ensures b.readCount <= n + 3 && Ended(w, b.world, out, old(b.facet), b.facet, b.writeCount)
  {
    out := Confirm(w, b, r);
    if out.Reported? {
      AnsweredAfterReads(w, b.world, n, o, history, out.result);
    } else {
      assert FailsAt(w, b.world, n);
    }
  }

  /** One iteration after its read. Going on means the poll decided nothing and wrote nothing. */
  method Poll(w: Watch, b: Backend, t: Transitions, n: nat, o: Observation) returns (next: Next)
    requires t.Valid() && Looking(w, b.world, n, o, t.history) && b.readCount == n + 1 && b.writeCount == 0
    modifies b, t
    ensures t.Valid() && b.readCount <= n + 3 && b.writeCount <= 1
    ensures next.Continue? ==> Undecided(w, Seen(o)) && t.history == History(w, b.world, n + 1)
    ensures next.Continue? ==> b.readCount == n + 1 && b.writeCount == 0 && b.facet == old(b.facet)
    ensures next.Stop? ==> Ended(w, b.world, next.outcome, old(b.facet), b.facet, b.writeCount)
  {
    var r := Result(TimedOut, n + 1, [], t.recorded, t.truncated, false);
    if !w.current(o.head) {
      r := r.(status := Superseded);
      AnsweredAtPoll(w, b.world, n, o, t.history, r, b.facet);
      return Stop(Reported(r));
    }
    var allTerminal := ChecksAllTerminal(o.checks);
    var anyFailed := ChecksHasFailed(o.checks);
    if w.failFast && anyFailed && (!o.complete || !allTerminal) {
      r := r.(status := FailedChecks, checks := o.checks);
      AnsweredAtPoll(w, b.world, n, o, t.history, r, b.facet);
      return Stop(Reported(r));
    }
    if !o.complete {
      return Continue;
    }
    t.Observe(o.checks);
    var terminal, failed := ChecksTerminal(o.checks, w.failFast);
    if !terminal {
      return Continue;
    }
    if failed && w.failFast && !allTerminal {
      assert false;
    }
    r := r.(checks := o.checks, transitions := t.recorded, truncated := t.truncated);
    var outcome := Decide(w, b, n, o, old(t.history), r);
    next := Stop(outcome);
  }

  /** Running out of time or polls is justified, and nothing was written. */
  lemma TimingOut(w: Watch, e: World, n: nat, t: seq<Signature>, truncated: bool, f: Facet)
    requires n <= MAX_POLLS && KeptWaiting(w, e, n) && (n == MAX_POLLS || DeadlineAt(e, n + 1))
    requires RecordsOk(Waited(n, t, truncated), History(w, e, n))
    ensures Justified(w, e, Waited(n, t, truncated)) && Stored(w, e, n, f, f, 0)
  {
  }

  /** A whole iteration: the deadline, the read, the decision, the progress report. */
  method Iterate(w: Watch, b: Backend, t: Transitions, n: nat) returns (next: Next)
    requires n < MAX_POLLS && t.Valid() && StillWaiting(w, b.world, n, t.history, b.readCount, b.writeCount)
    modifies b, t
    ensures b.readCount <= n + 3 && b.writeCount <= 1
    ensures next.Continue? ==> t.Valid() && StillWaiting(w, b.world, n + 1, t.history, b.readCount, b.writeCount) && b.facet == old(b.facet)
    ensures next.Stop? ==> Ended(w, b.world, next.outcome, old(b.facet), b.facet, b.writeCount)
  {
    var fault := b.world.context(n + 1);
    var reply := Broken(OtherFault);
    if fault.None? {
      reply := b.GetStatus();
      fault := if reply.Broken? then Some(reply.fault) else None;
    }
    match fault {
      case Some(DeadlineExceeded) =>
        TimingOut(w, b.world, n, t.recorded, t.truncated, b.facet);
        return Stop(Reported(Waited(n, t.recorded, t.truncated)));
      case Some(OtherFault) =>
        assert FailsAt(w, b.world, n);
        return Stop(Error);
      case None =>
    }
    next := Poll(w, b, t, n, reply.seen);
    if next.Continue? {
      if b.world.progress(n + 1) {
        WaitedOnce(w, b.world, n);
      } else {
        assert FailsAt(w, b.world, n);
        next := Stop(Error);
      }
    }
  }

  lemma WaitedOnce(w: Watch, e: World, n: nat)
    requires KeptWaiting(w, e, n) && e.context(n + 1).None? && Undecided(w, e.replies(n + 1)) && e.progress(n + 1)
    ensures KeptWaiting(w, e, n + 1)
  {
  }

  /** Between two polls: n of them made, and nothing written. */
  ghost predicate StillWaiting(w: Watch, e: World, n: nat, history: seq<Signature>, readCount: nat, writeCount: nat) {
    history == History(w, e, n) && KeptWaiting(w, e, n) && readCount == n && writeCount == 0
  }

  /** The watch begins, with nothing read yet. */
  method Begin(w: Watch, b: Backend) returns (t: Transitions)
    requires b.readCount == b.writeCount == 0
    ensures fresh(t) && t.Valid() && StillWaiting(w, b.world, 0, t.history, b.readCount, b.writeCount)
  {
    t := new Transitions();
  }

  /** The watch has used up its polls. */
  method Expire(w: Watch, b: Backend, t: Transitions) returns (out: Outcome)
    requires t.Valid() && StillWaiting(w, b.world, MAX_POLLS, t.history, b.readCount, b.writeCount)
    ensures Ended(w, b.world, out, b.facet, b.facet, b.writeCount)
  {
    TimingOut(w, b.world, MAX_POLLS, t.recorded, t.truncated, b.facet);
    out := Reported(Waited(MAX_POLLS, t.recorded, t.truncated));
  }

  /** waitPullRequestChecks. */
  method Await(w: Watch, b: Backend) returns (out: Outcome)
    requires b.readCount == b.writeCount == 0
    modifies b
    ensures b.readCount <= 10002 && b.writeCount <= 1
    ensures Ended(w, b.world, out, old(b.facet), b.facet, b.writeCount)
    ensures out.Reported? ==> KeepsReport(b.world, out.result, old(b.facet), b.facet)
  {
    out := Loop(w, b);
    if out.Reported? {
      PersistedKeepsReport(w, b.world, out.result, old(b.facet), b.facet, b.writeCount);
    }
  }

  method Loop(w: Watch, b: Backend) returns (out: Outcome)
    requires b.readCount == b.writeCount == 0
    modifies b
    ensures b.readCount <= MAX_POLLS + 2 && b.writeCount <= 1
    ensures Ended(w, b.world, out, old(b.facet), b.facet, b.writeCount)
  {
    var t := Begin(w, b);
    var n := 0;
    while n < MAX_POLLS
      invariant 0 <= n <= MAX_POLLS && fresh(t) && t.Valid() && b.facet == old(b.facet)
      invariant StillWaiting(w, b.world, n, t.history, b.readCount, b.writeCount)
    {
      var next := Iterate(w, b, t, n);
      if next.Stop? {
        return next.outcome;
      }
      n := n + 1;
    }
    out := Expire(w, b, t);
  }

  function Waited(n: nat, recorded: seq<Signature>, truncated: bool): Result {
    Result(TimedOut, n, [], recorded, truncated, false)
  }

  /** The polls up to the n-th that saw a complete check set, in order. */
  ghost predicate CompletePolls(e: World, n: nat, polls: seq<nat>) {
    && (forall i, j :: 0 <= i < j < |polls| ==> polls[i] < polls[j])
    && (forall i :: 0 <= i < |polls| ==> 1 <= polls[i] <= n && SawAll(e, polls[i]))
    && (forall k: nat :: 1 <= k <= n && SawAll(e, k) ==> k in polls)
  }

  predicate SawAll(e: World, k: nat) {
    e.replies(k).Seen? && e.replies(k).seen.complete
  }

  lemma Increasing(e: World, n: nat, polls: seq<nat>, i: nat, j: nat)
    requires CompletePolls(e, n, polls) && i <= j < |polls|
    ensures i < j ==> polls[i] < polls[j]
  {
  }

  lemma EarlierPolls(e: World, n: nat, polls: seq<nat>)
    requires n > 0 && CompletePolls(e, n, polls)
    ensures if SawAll(e, n) then |polls| > 0 && polls[|polls| - 1] == n && CompletePolls(e, n - 1, polls[..|polls| - 1])
            else CompletePolls(e, n - 1, polls)
  {
    if SawAll(e, n) {
      var i :| 0 <= i < |polls| && polls[i] == n;
      var last := |polls| - 1;
      assert 1 <= polls[last] <= n;
      Increasing(e, n, polls, i, last);
      forall k: nat | 1 <= k <= n - 1 && SawAll(e, k)
        ensures k in polls[..i]
      {
        assert k in polls;
      }
    }
  }

  lemma PollsNeedTime(e: World, n: nat, polls: seq<nat>)
    requires CompletePolls(e, n, polls) && polls != []
    ensures n >= 1
  {
    assert 1 <= polls[0] <= n;
  }

  lemma HistoryStep(w: Watch, e: World, n: nat)
    requires n > 0 && KeptWaiting(w, e, n)
    ensures History(w, e, n) == History(w, e, n - 1) + if SawAll(e, n) then [e.replies(n).seen.checks] else []
  {
    assert Undecided(w, e.replies(n));
  }

  /** What the transitions of a watch are drawn from: the check set of every complete poll that
      left it waiting, in order, and of no other. */
  lemma {:induction false} HistoryFollowsPolls(w: Watch, e: World, n: nat, polls: seq<nat>)
    requires KeptWaiting(w, e, n) && CompletePolls(e, n, polls)
    ensures |History(w, e, n)| == |polls|
    ensures forall i :: 0 <= i < |polls| ==> History(w, e, n)[i] == e.replies(polls[i]).seen.checks
  {
    if n > 0 {
      HistoryStep(w, e, n);
      EarlierPolls(e, n, polls);
      var earlier := if SawAll(e, n) then polls[..|polls| - 1] else polls;
      HistoryFollowsPolls(w, e, n - 1, earlier);
    } else if polls != [] {
      PollsNeedTime(e, n, polls);
    }
  }

  // ---------------------------------------------------------------------------
  // What the answers mean
  // ---------------------------------------------------------------------------

  /** Persisted: three reads of the expected head, each with a complete finished set, and the
      answer carries the last one's checks. Succeeded: persisted, finished, nothing failed.
      Failed: a reported check is finished and failed. Superseded: a read saw another head. */
  lemma AnswersAreJustified(w: Watch, e: World, r: Result)
    requires Justified(w, e, r)
    ensures r.persisted ==> forall k: nat :: r.polls <= k <= r.polls + 2 ==> Confirms(w, e.replies(k))
    ensures r.persisted ==> r.checks == e.replies(r.polls + 2).seen.checks && AllTerminal(r.checks)
    ensures r.status.Succeeded? ==> r.persisted && AllTerminal(r.checks) && !HasFailed(r.checks)
    ensures r.status.Succeeded? ==> r.checks != [] && forall c :: c in r.checks ==> Upper(Deciding(c)) in {"SUCCESS", "NEUTRAL", "SKIPPED"}
    ensures r.status.FailedChecks? ==> HasFailed(r.checks) && (r.persisted || w.failFast)
    ensures r.status.FailedChecks? ==>
              exists c :: c in r.checks && (Upper(c.conclusion) in BROKEN + {"STARTUP_FAILURE"} || Upper(c.status) in BROKEN)
    ensures r.status.Superseded? ==> exists k: nat :: r.polls <= k <= r.polls + 2 && Moved(w, e.replies(k))
    ensures r.persisted ==> r.status.Succeeded? || r.status.FailedChecks?
  {
    forall c | c in r.checks
      ensures Terminal(c) && !Failed(c) ==> Upper(Deciding(c)) in {"SUCCESS", "NEUTRAL", "SKIPPED"}
      ensures Terminal(c) && Failed(c) ==> Upper(c.conclusion) in BROKEN + {"STARTUP_FAILURE"} || Upper(c.status) in BROKEN
    {
      VerdictTexts(c);
    }
    if r.status.FailedChecks? {
      var c :| c in r.checks && Terminal(c) && Failed(c);
    }
    if r.status.Superseded? {
      assert Moved(w, e.replies(r.polls)) || Moved(w, e.replies(r.polls + 1)) || Moved(w, e.replies(r.polls + 2));
    }
  }

  /** For a watch on a commit, a read is current exactly when its head parses to that commit. */
  lemma CurrentIffParses(sha: seq<Byte>, failFast: bool, reply: Reply)
    requires |sha| == SHA_BYTES
    ensures Current(WatchHead(sha, failFast), reply) <==> reply.Seen? && CommitSha.Parse(reply.seen.head) == Some(sha)
  {
    if reply.Seen? {
      MatchesIffParses(sha, reply.seen.head);
    }
  }

  lemma NoEarlierEnd(w: Watch, e: World, a: Result, b: Result)
    requires Justified(w, e, a) && Justified(w, e, b)
    ensures a.polls >= b.polls
  {
  }

  /** The reads decide the answer: the justification leaves no choice at all. */
  lemma AnswerIsDetermined(w: Watch, e: World, a: Result, b: Result)
    requires Justified(w, e, a) && Justified(w, e, b)
    ensures a == b
  {
    NoEarlierEnd(w, e, a, b);
    NoEarlierEnd(w, e, b, a);
    if KeptWaiting(w, e, a.polls) && a.polls > 0 {
      assert Undecided(w, e.replies(a.polls));
    }
  }

  /** A watch that reports the snapshot persisted really replaced it exactly when no other
      writer moved the row after the baseline and the observation is not older than the row:
      a refused write is reported like an applied one. */
  lemma PersistedReplacesIff(e: World, o: Observation, before: Facet)
    requires e.store.NoFault? && e.others(before).Valid()
    ensures var f, after := e.others(before), Replaced(e, before, o, before.Baseline());
            var time := if o.updated == 0 then e.threadUpdated else o.updated;
            (after.coverage.Some? && after.coverage.value.sequence > f.lastSequence
             && IsSnapshot(after, time, e.marshal(o.checks)))
            <==> f.Baseline() == before.Baseline() && time > 0 && (f.coverage.Some? ==> time >= f.coverage.value.updated)
  {
    var write := e.WriteOf(o);
    assert write.pages[1..] == [];
    assert Latest(write.updated, write.pages) == write.updated;
  }

  /** The stored check facet is one page with this payload and nothing else, complete as of that
      time. */
  predicate IsSnapshot(f: Facet, time: nat, payload: string) {
    && f.coverage.Some? && f.coverage.value.updated == time && f.coverage.value.complete
    && f.pages == [Page(time, payload, "")]
  }

  /** What is stored after a persisted answer: unless another writer or an older observation came
      in between, exactly the checks the answer reports, as of the time of the last read. */
  ghost predicate KeepsReport(e: World, r: Result, before: Facet, after: Facet) {
    r.persisted && before.Valid() && e.others(before) == before && e.replies(r.polls + 2).Seen? ==>
      var seen := e.replies(r.polls + 2).seen.updated;
      var time := if seen == 0 then e.threadUpdated else seen;
      time > 0 && (before.coverage.Some? ==> time >= before.coverage.value.updated) ==>
        IsSnapshot(after, time, e.marshal(r.checks))
  }

  lemma PersistedKeepsReport(w: Watch, e: World, r: Result, before: Facet, after: Facet, writes: nat)
    requires Justified(w, e, r) && Stored(w, e, r.polls, before, after, writes)
    ensures KeepsReport(e, r, before, after)
  {
    if r.persisted && before.Valid() && e.others(before) == before {
      AnswersAreJustified(w, e, r);
      PersistedReplacesIff(e, e.replies(r.polls + 2).seen, before);
    }
  }

  /** The other writer's row, as the corpus of the example below holds it. */
  const OTHERS := Facet(Some(Coverage(7, 2, true)), [Page(7, "other", "")], 2)

  lemma RefusedWrite(e: World, o: Observation, before: Facet)
    requires e.store.NoFault? && e.others(before) == OTHERS && before == Facet(Some(Coverage(5, 1, true)), [], 1)
    ensures Replaced(e, before, o, before.Baseline()) == OTHERS
  {
  }

  lemma PassingCheck(c: Check)
    requires c == Check("run", "build", "", "SUCCESS")
    ensures Terminal(c) && !Failed(c)
  {
    assert Upper(c.conclusion) == "SUCCESS" && Upper(c.status) == "";
  }

  lemma EndsAtOnce(w: Watch, e: World, o: Observation, c: Check)
    requires e.replies(1) == e.replies(2) == e.replies(3) == Seen(o) && w.current(o.head) && !w.failFast
    requires o.checks == [c] && o.complete && Terminal(c) && !Failed(c)
    requires e.context(1).None? && e.baselineOk && e.store.NoFault?
    ensures Justified(w, e, Result(Succeeded, 1, [c], [[c]], false, true)) && Written(w, e, 1)
  {
    assert AllTerminal([c]) && !HasFailed([c]);
    assert History(w, e, 0) == [] && History(w, e, 1) == [[c]];
    assert Changes([[c]][..0]) == [];
  }

  /** A run of three matching reads that reports success although the stored checks are the
      other writer's. */
  lemma PersistedWithoutReplacing(c: Check) returns (w: Watch, e: World, r: Result, before: Facet)
    requires c == Check("run", "build", "", "SUCCESS")
    ensures Justified(w, e, r) && r.persisted && r.status.Succeeded?
    ensures before.Valid() && e.others(before) == OTHERS && OTHERS.Valid() && OTHERS.pages[0].payload != e.marshal(r.checks)
    ensures Stored(w, e, r.polls, before, OTHERS, 1)
  {
    var o := Observation("", [c], true, 10);
    before := Facet(Some(Coverage(5, 1, true)), [], 1);
    w := Watch(_ => true, false);
    e := World(_ => Seen(o), _ => None, _ => true, true, _ => OTHERS, NoFault, 0, _ => "ours");
    r := Result(Succeeded, 1, [c], [[c]], false, true);
    PassingCheck(c);
    EndsAtOnce(w, e, o, c);
    RefusedWrite(e, o, before);
  }
}
