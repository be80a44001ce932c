/** What the executor guarantees in every run of every interleaving. */
module JobExecutorTheorems {
  import opened JobStore
  import opened JobExecutor
  import opened JobExecutorInvariant

  ghost function RunningJobs(tickets: map<JobId, Ticket>): set<JobId> {
    set j | j in tickets && tickets[j].pc.InRun?
  }

  lemma SubsetSize(a: set<JobId>, b: set<JobId>)
    requires a <= b
    ensures |a| <= |b|
  {
    if a != {} {
      var x :| x in a;
      SubsetSize(a - {x}, b - {x});
    }
  }

  /** Admission and concurrency bounds, in every interleaving. */
  lemma Bounds(c: Config, s: State)
    requires Reachable(c, s)
    ensures 0 <= s.g.admittedCount == |ActiveJobs(s.tickets)| <= c.maxAdmitted
    ensures |s.g.registered| <= s.g.admittedCount
    ensures |RunningJobs(s.tickets)| <= |SlotHolders(s.tickets)| == s.slotsUsed <= c.maxConcurrent
  {
    ReachableInv(c, s);
    SubsetSize(RegisteredJobs(s.tickets), ActiveJobs(s.tickets));
    SubsetSize(RunningJobs(s.tickets), SlotHolders(s.tickets));
  }

  predicate PastDrain(s: State) {
    s.closer.Drained? || s.closer.Returned?
  }

  ghost predicate AllDone(s: State) {
    forall j :: j in s.tickets ==> s.tickets[j].pc == Leaving(Done)
  }

  lemma DrainedMeansDone(c: Config, s: State)
    requires Inv(c, s) && PastDrain(s)
    ensures AllDone(s)
  {
    forall j | j in s.tickets
      ensures s.tickets[j].pc == Leaving(Done)
    {
      assert j !in ActiveJobs(s.tickets);
    }
  }

  lemma DrainedStep(c: Config, s: State, e: Event)
    requires PastDrain(s) && s.g.closed && AllDone(s) && Enabled(c, s, e)
    ensures var s' := Next(c, s, e);
            && PastDrain(s') && s'.tickets.Keys == s.tickets.Keys
            && forall j :: j in s.tickets ==> s'.tickets[j].past.calls == s.tickets[j].past.calls
  {
    if e.Owned? {
      DoneIsFinal(e.o, s.tickets[e.j], RowOf(s, e.j), s.rootCancelled);
    }
  }

  lemma DoneIsFinal(o: Own, t: Ticket, row: Row, root: bool)
    requires t.pc == Leaving(Done)
    ensures !OwnEnabled(o, t, row, root)
  {
  }

  /** Once the wait loop has seen zero, no later event can admit a job or call a JobFunc, so
      none is running or can start when, or after, the owner row is deleted. */
  lemma {:induction false} DrainIsPermanent(c: Config, states: seq<State>, events: seq<Event>, i: nat)
    requires IsPath(c, states, events) && Reachable(c, states[0]) && PastDrain(states[0]) && i < |states|
    ensures PastDrain(states[i]) && AllDone(states[i]) && states[i].g.admittedCount == 0 && states[i].g.closed
    ensures states[i].tickets.Keys == states[0].tickets.Keys
    ensures forall j :: j in states[0].tickets ==> states[i].tickets[j].past.calls == states[0].tickets[j].past.calls
  {
    ReachableInv(c, states[0]);
    PathKeepsInv(c, states, events, i);
    if i > 0 {
      DrainIsPermanent(c, states, events, i - 1);
      DrainedStep(c, states[i - 1], events[i - 1]);
    }
    DrainedMeansDone(c, states[i]);
  }

  lemma OwnerDeletedAfterDrain(c: Config, s: State)
    requires Reachable(c, s) && !s.ownerRow
    ensures s.closer.Returned? && s.background == 0 && AllDone(s) && s.g.closed && s.rootCancelled
  {
    ReachableInv(c, s);
    DrainedMeansDone(c, s);
  }

  /** How far a goroutine still is from Done; AcquireSlot is the only step another goroutine
      can hold up, and a cancelled root context always offers AcquireError instead. */
  function Distance(pc: Pc): nat {
    match pc
    case Entering(Reserved) => 17
    case Entering(Created) => 16
    case Entering(Acquiring) => 15
    case Entering(AcquireFailed) => 14
    case Entering(CheckingClosed) => 13
    case Entering(DroppingQueued(_)) => 12
    case Entering(Starting) => 12
    case FailingStart(StartFailed) => 10
    case FailingStart(RecordingStartFailure(_)) => 9
    case InRun(Executing) => 11
    case InRun(ReadingBack) => 10
    case InRun(Judging) => 9
    case InRun(Finishing(t)) => if t.RunningToSucceeded? then 8 else 7
    case InRun(Converting) => 6
    case Leaving(FreeingSlot) => 5
    case Leaving(Unregistering) => 4
    case Leaving(CancellingOwn) => 3
    case Leaving(ReleasingAdmission) => 2
    case Leaving(Done) => 0
  }

  /** What a goroutine can do next by itself once the root context is cancelled. */
  function Move(t: Ticket): Own {
    match t.pc
    case Entering(Reserved) => Submitting(CreateRow)
    case Entering(Created) => Submitting(Register)
    case Entering(Acquiring) => Waiting(AcquireError)
    case Entering(AcquireFailed) => Waiting(CheckRoot)
    case Entering(CheckingClosed) => Waiting(CheckClosed)
    case Entering(DroppingQueued(_)) => Waiting(DropQueued(Normal))
    case Entering(Starting) => StartUp(CallStart(Normal))
    case FailingStart(StartFailed) => StartUp(ReadAfterStartFailure(true))
    case FailingStart(RecordingStartFailure(_)) => StartUp(RecordStartFailure(Normal))
    case InRun(Executing) => Work(FnReturns(true))
    case InRun(ReadingBack) => Work(ReadBack(true))
    case InRun(Judging) => Work(Judge(true))
    case InRun(Finishing(_)) => Work(Finish(Normal))
    case InRun(Converting) => Work(Convert(Normal))
    case Leaving(FreeingSlot) => Leave(FreeSlot)
    case Leaving(Unregistering) => Leave(Unregister)
    case Leaving(CancellingOwn) => Leave(CancelOwn)
    case Leaving(_) => Leave(ReleaseAdmission)
  }

  /** Every step of a goroutine brings it closer to Done, whatever the store answers. */
  lemma StepsAdvance(o: Own, t: Ticket, row: Row, closed: bool, root: bool)
    requires OwnEnabled(o, t, row, root)
    ensures Distance(OwnNext(o, t, row, closed, root).0.pc) < Distance(t.pc) <= 17
  {
    match o
    case Submitting(a) => SubmitAdvances(a, t, row);
    case Waiting(v) => WaitAdvances(v, t, row, closed, root);
    case StartUp(b) => StartAdvances(b, t, row);
    case Work(w) => WorkAdvances(w, t, row, root);
    case Leave(l) =>
  }

  lemma SubmitAdvances(a: SubmitStep, t: Ticket, row: Row)
    requires SubmitEnabled(a, t)
    ensures Distance(SubmitNext(a, t, row).0.pc) < Distance(t.pc) <= 17
  {
  }

  lemma WaitAdvances(v: WaitStep, t: Ticket, row: Row, closed: bool, root: bool)
    requires WaitEnabled(v, t, row, root)
    ensures Distance(WaitNext(v, t, row, closed, root).0.pc) < Distance(t.pc) <= 17
  {
  }

  lemma StartAdvances(b: StartStep, t: Ticket, row: Row)
    requires StartEnabled(b, t, row)
    ensures Distance(StartNext(b, t, row).0.pc) < Distance(t.pc) <= 17
  {
  }

  lemma WorkAdvances(w: WorkStep, t: Ticket, row: Row, root: bool)
    requires WorkEnabled(w, t, row)
    ensures Distance(WorkNext(w, t, row, root).0.pc) < Distance(t.pc) <= 17
  {
  }

  // ---------------------------------------------------------------------------
  // How long the drain can take
  // ---------------------------------------------------------------------------

  /** The distances of all goroutines together. */
  ghost function TotalDistance(tickets: map<JobId, Ticket>): nat
    decreases |tickets|
  {
    if tickets == map[] then 0
    else
      var j :| j in tickets;
      Distance(tickets[j].pc) + TotalDistance(tickets - {j})
  }

  /** The total does not depend on which goroutine is counted first. */
  lemma {:induction false} TotalSplits(tickets: map<JobId, Ticket>, j: JobId)
    requires j in tickets
    ensures TotalDistance(tickets) == Distance(tickets[j].pc) + TotalDistance(tickets - {j})
    decreases |tickets|
  {
    var k :| k in tickets && TotalDistance(tickets) == Distance(tickets[k].pc) + TotalDistance(tickets - {k});
    if k != j {
      TotalSplits(tickets - {k}, j);
      TotalSplits(tickets - {j}, k);
      assert tickets - {k} - {j} == tickets - {j} - {k};
    }
  }

  lemma {:induction false} TotalBound(tickets: map<JobId, Ticket>)
    ensures TotalDistance(tickets) <= 17 * |tickets|
    decreases |tickets|
  {
    if tickets != map[] {
      var j :| j in tickets;
      TotalSplits(tickets, j);
      TotalBound(tickets - {j});
      assert (tickets - {j}).Keys == tickets.Keys - {j};
    }
  }

  lemma TotalAfter(tickets: map<JobId, Ticket>, j: JobId, t: Ticket)
    requires j in tickets
    ensures TotalDistance(tickets[j := t]) == TotalDistance(tickets) - Distance(tickets[j].pc) + Distance(t.pc)
  {
    TotalSplits(tickets, j);
    TotalSplits(tickets[j := t], j);
    assert tickets[j := t] - {j} == tickets - {j};
  }

  function OwnSteps(events: seq<Event>): nat {
    if events == [] then 0 else OwnSteps(events[..|events| - 1]) + if events[|events| - 1].Owned? then 1 else 0
  }

  lemma OtherStepsKeepTotal(c: Config, s: State, e: Event)
    requires Enabled(c, s, e) && s.g.closed && !e.Owned?
    ensures TotalDistance(Next(c, s, e).tickets) == TotalDistance(s.tickets)
    ensures Next(c, s, e).g.closed && Next(c, s, e).tickets.Keys == s.tickets.Keys
  {
    if e.CancelContext? || e.CloseCancelJob? {
      TotalAfter(s.tickets, e.j, s.tickets[e.j].(ctxCancelled := true));
    } else if e.RequestCancel? {
      TotalAfter(s.tickets, e.j, s.tickets[e.j].(past := s.tickets[e.j].past.(requested := true)));
    } else if e.ReconcileRow? {
      TotalAfter(s.tickets, e.j, s.tickets[e.j].(past := s.tickets[e.j].past.(interrupted := true)));
    }
  }

  /** From the moment Close has begun, all goroutines together can take only so many more steps,
      at most 17 for each job ever submitted, in every interleaving: the drain cannot go on for
      ever. */
  lemma {:induction false} DrainIsBounded(c: Config, states: seq<State>, events: seq<Event>)
    requires IsPath(c, states, events) && states[0].g.closed
    ensures states[|events|].g.closed && states[|events|].tickets.Keys == states[0].tickets.Keys
    ensures OwnSteps(events) + TotalDistance(states[|events|].tickets) <= TotalDistance(states[0].tickets)
    ensures OwnSteps(events) <= 17 * |states[0].tickets|
    decreases |events|
  {
    TotalBound(states[0].tickets);
    if events != [] {
      var n := |events| - 1;
      DrainIsBounded(c, states[..n + 1], events[..n]);
      var s, e := states[n], events[n];
      if e.Owned? {
        var o, t := e.o, s.tickets[e.j];
        OwnEffect(c, s, e.j, o);
        StepsAdvance(o, t, RowOf(s, e.j), s.g.closed, s.rootCancelled);
        TotalAfter(s.tickets, e.j, OwnNext(o, t, RowOf(s, e.j), s.g.closed, s.rootCancelled).0);
      } else {
        OtherStepsKeepTotal(c, s, e);
      }
    }
  }

  /** No wakeup is lost and the drain cannot block: a parked closer still has an active job,
      and every active job's goroutine has a step of its own to take. */
  lemma ParkedCloserHasMover(c: Config, s: State) returns (j: JobId)
    requires Reachable(c, s) && s.closer.Parked?
    ensures s.g.admittedCount > 0
    ensures j in s.tickets && s.tickets[j].pc.Active() && Enabled(c, s, Owned(j, Move(s.tickets[j])))
  {
    ReachableInv(c, s);
    assert ActiveJobs(s.tickets) != {};
    j :| j in ActiveJobs(s.tickets);
    assert TicketOk(s.tickets[j], s.g.closed, s.rootCancelled, RowOf(s, j));
    MoveEnabled(s.tickets[j], RowOf(s, j), s.g.closed);
  }

  lemma MoveEnabled(t: Ticket, row: Row, closed: bool)
    requires TicketOk(t, closed, true, row) && t.pc.Active()
    ensures OwnEnabled(Move(t), t, row, true) && Move(t) != Waiting(AcquireSlot)
  {
  }

  /** What the draining Close leaves behind: every submitted job is terminal, unless a store
      call failed for it or its waiter woke between the per-job cancels and the root cancel. */
  lemma CloseLeavesTerminal(c: Config, s: State, j: JobId)
    requires Reachable(c, s) && PastDrain(s) && j in s.tickets && RowOf(s, j).Row?
    ensures var t, job := s.tickets[j], RowOf(s, j).job;
            && job.Parses()
            && (job.status.Terminal() || t.past.fault || (t.past.wokeEarly && job.status.Queued?))
            && (job.status.Running? ==> t.past.fault)
            && (job.status.Succeeded? ==> t.past.calls == 1 && t.past.fnOk)
            && (job.status.Failed? ==> t.past.fault || t.past.interrupted || (t.past.calls == 1 && !t.past.fnOk))
  {
    ReachableInv(c, s);
    DrainedMeansDone(c, s);
    assert TicketOk(s.tickets[j], s.g.closed, s.rootCancelled, RowOf(s, j));
  }

  /** When the waiter gives up, its row stays unfinished in exactly one case: nobody has
      stopped the job yet and the root context is still live. That happens only in Close. */
  lemma CheckRootStrandsIff(c: Config, s: State, j: JobId)
    requires Reachable(c, s) && Enabled(c, s, Owned(j, Waiting(CheckRoot)))
    ensures var s' := Next(c, s, Owned(j, Waiting(CheckRoot)));
            && RowOf(s', j).Row? && RowOf(s, j).Row?
            && (s'.tickets[j].pc.Leaving? && !RowOf(s', j).job.status.Terminal()
                <==> !s.rootCancelled && RowOf(s, j).job.status.Queued?)
            && (!s.rootCancelled && RowOf(s, j).job.status.Queued? ==> s.g.closed)
  {
    ReachableInv(c, s);
    assert TicketOk(s.tickets[j], s.g.closed, s.rootCancelled, RowOf(s, j));
  }

  /** Such a run exists without any store failure: Close cancels the one queued job, its
      waiter wakes before Close cancels the root context, and the row stays queued. */
  lemma StrandedRun(c: Config) returns (s: State)
    requires c.maxAdmitted > 0
    ensures Reachable(c, s) && s.closer.Returned?
    ensures 0 in s.tickets && !s.tickets[0].past.fault && RowOf(s, 0) == Row(NEW_JOB)
  {
    s := StrandedSubmit(c);
    s := StrandedClose(c, s);
    s := StrandedWake(c, s);
    s := StrandedLeave(c, s);
    s := Follow(c, s, CloseCheck);
    s := Follow(c, s, BackgroundExit);
    s := Follow(c, s, BackgroundExit);
    s := Follow(c, s, CloseDeleteOwner);
  }

  /** A state with job 0 alone, its row still queued. */
  function Lone(pc: Pc, ctx: bool, woke: bool, root: bool, registered: set<JobId>, count: int, closer: CloserPc): State {
    State(Guarded(!closer.Open?, registered, count), root, 0, map[0 := Ticket(pc, ctx, Past(0, false, false, woke, false, false, false))],
          map[0 := Row(NEW_JOB)], closer, 2, true)
  }

  lemma StrandedSubmit(c: Config) returns (s: State)
    requires c.maxAdmitted > 0
    ensures Reachable(c, s) && s == Lone(Entering(Acquiring), false, false, false, {0}, 1, Open)
  {
    s := INITIAL;
    assert IsPath(c, [INITIAL], []);
    s := Follow(c, s, Submit(0));
    s := Follow(c, s, Owned(0, Submitting(CreateRow)));
    assert s == Lone(Entering(Created), false, false, false, {}, 1, Open);
    s := Follow(c, s, Owned(0, Submitting(Register)));
  }

  lemma StrandedClose(c: Config, s0: State) returns (s: State)
    requires Reachable(c, s0) && s0 == Lone(Entering(Acquiring), false, false, false, {0}, 1, Open)
    ensures Reachable(c, s) && s == Lone(Entering(Acquiring), true, false, false, {0}, 1, CancellingJobs({}))
  {
    s := Follow(c, s0, CloseBegin);
    assert s == Lone(Entering(Acquiring), false, false, false, {0}, 1, CancellingJobs({0}));
    var none: set<JobId> := {0} - {0};
    assert none == {};
    s := Follow(c, s, CloseCancelJob(0));
  }

  lemma StrandedWake(c: Config, s0: State) returns (s: State)
    requires Reachable(c, s0) && s0 == Lone(Entering(Acquiring), true, false, false, {0}, 1, CancellingJobs({}))
    ensures Reachable(c, s) && s == Lone(Leaving(Unregistering), true, true, false, {0}, 1, CancellingJobs({}))
  {
    s := Follow(c, s0, Owned(0, Waiting(AcquireError)));
    s := Follow(c, s, Owned(0, Waiting(CheckRoot)));
  }

  lemma StrandedLeave(c: Config, s0: State) returns (s: State)
    requires Reachable(c, s0) && s0 == Lone(Leaving(Unregistering), true, true, false, {0}, 1, CancellingJobs({}))
    ensures Reachable(c, s) && s == Lone(Leaving(Done), true, true, true, {}, 0, AboutToCheck)
  {
    s := Follow(c, s0, CloseCancelRoot);
    s := Follow(c, s, Owned(0, Leave(Unregister)));
    assert s == Lone(Leaving(CancellingOwn), true, true, true, {}, 1, AboutToCheck);
    s := Follow(c, s, Owned(0, Leave(CancelOwn)));
    s := Follow(c, s, Owned(0, Leave(ReleaseAdmission)));
  }

  lemma Follow(c: Config, s: State, e: Event) returns (s': State)
    requires Reachable(c, s) && Enabled(c, s, e)
    ensures s' == Next(c, s, e) && Reachable(c, s')
  {
    ReachableNext(c, s, e);
    s' := Next(c, s, e);
  }

  /** A goroutine enters its JobFunc only by a start that found the row queued. */
  lemma StartClaims(b: StartStep, t: Ticket, row: Row)
    requires StartEnabled(b, t, row)
    ensures var (t', row') := StartNext(b, t, row);
            t'.past.calls == t.past.calls ||
            (t'.past.calls == t.past.calls + 1 && row.job.status.Queued? && !row.job.cancelled
             && row'.Row? && row'.job.status.Running?)
  {
    if b.RecordStartFailure? {
      RecordDoesNotCall(b.effect, t, row);
    }
  }

  lemma RecordDoesNotCall(e: Effect, t: Ticket, row: Row)
    requires StartEnabled(RecordStartFailure(e), t, row)
    ensures StartNext(RecordStartFailure(e), t, row).0.past.calls == t.past.calls
  {
  }

  lemma OtherStepsDoNotCall(o: Own, t: Ticket, row: Row, closed: bool, root: bool)
    requires OwnEnabled(o, t, row, root) && !o.StartUp?
    ensures OwnNext(o, t, row, closed, root).0.past.calls == t.past.calls
  {
    match o
    case Submitting(a) =>
    case Waiting(v) => WaitDoesNotCall(v, t, row, closed, root);
    case Work(w) => WorkDoesNotCall(w, t, row, root);
    case Leave(l) =>
  }

  lemma WaitDoesNotCall(v: WaitStep, t: Ticket, row: Row, closed: bool, root: bool)
    requires WaitEnabled(v, t, row, root)
    ensures WaitNext(v, t, row, closed, root).0.past.calls == t.past.calls
  {
  }

  lemma WorkDoesNotCall(w: WorkStep, t: Ticket, row: Row, root: bool)
    requires WorkEnabled(w, t, row)
    ensures WorkNext(w, t, row, root).0.past.calls == t.past.calls
  {
  }

  /** A JobFunc is entered at most once per job, and only by the step in which the store
      moves that job's row from queued to running. */
  lemma CalledOnlyWhenClaimed(c: Config, s: State, e: Event, j: JobId)
    requires Reachable(c, s) && Enabled(c, s, e) && j in s.tickets
    ensures var s' := Next(c, s, e);
            && s'.tickets[j].past.calls <= 1
            && (s'.tickets[j].past.calls != s.tickets[j].past.calls ==>
                  && s.tickets[j].past.calls == 0
                  && RowOf(s, j).Row? && RowOf(s, j).job.status.Queued? && !RowOf(s, j).job.cancelled
                  && RowOf(s', j).Row? && RowOf(s', j).job.status.Running?)
  {
    ReachableInv(c, s);
    TicketsStep(c, s, e, j);
    if e.Owned? && e.j == j {
      if e.o.StartUp? {
        StartClaims(e.o.b, s.tickets[j], RowOf(s, j));
      } else {
        OtherStepsDoNotCall(e.o, s.tickets[j], RowOf(s, j), s.g.closed, s.rootCancelled);
      }
    }
  }

  /** Every step of a goroutine leaves its row alone or performs one store operation on it. */
  lemma OwnRowOp(o: Own, t: Ticket, row: Row, closed: bool, root: bool) returns (op: Op)
    requires OwnEnabled(o, t, row, root) && TicketOk(t, closed, root, row) && row.Row?
    ensures var row' := OwnNext(o, t, row, closed, root).1;
            row' == row || row' == Row(Perform(row.job, op))
  {
    op := Start;
    match o
    case Submitting(_) =>
    case Waiting(_) => op := Write(QueuedToCancelled);
    case StartUp(b) =>
      if b.RecordStartFailure? {
        op := Write(t.pc.f.t);
      }
    case Work(w) =>
      op := Write(if w.Finish? then t.pc.r.t else RunningToCancelled);
    case Leave(_) =>
  }

  lemma PerformKeepsCancelled(job: Job, op: Op)
    requires job.Parses() && job.cancelled
    ensures Perform(job, op).cancelled
  {
    RowHistory(job, [op]);
    assert Replay(job, [op]) == Replay(Perform(job, op), []);
  }

  lemma CancelledStays(c: Config, s: State, e: Event, j: JobId)
    requires Inv(c, s) && Enabled(c, s, e)
    requires j in s.tickets && RowOf(s, j).Row? && RowOf(s, j).job.cancelled
    ensures var s' := Next(c, s, e); j in s'.tickets && RowOf(s', j).Row? && RowOf(s', j).job.cancelled
  {
    var row := RowOf(s, j);
    assert TicketOk(s.tickets[j], s.g.closed, s.rootCancelled, row);
    if e.Owned? && e.j == j {
      var op := OwnRowOp(e.o, s.tickets[j], row, s.g.closed, s.rootCancelled);
      PerformKeepsCancelled(row.job, op);
    }
  }

  /** A cancellation recorded at any point, before or during completion, wins: in every later
      state of every run the row is running or cancelled, never succeeded and never failed,
      and once the goroutine leaves without a store failure it is cancelled. */
  lemma {:induction false} CancellationWins(c: Config, states: seq<State>, events: seq<Event>, i: nat, j: JobId)
    requires IsPath(c, states, events) && Reachable(c, states[0]) && i < |states|
    requires j in states[0].tickets && RowOf(states[0], j).Row? && RowOf(states[0], j).job.cancelled
    ensures j in states[i].tickets && RowOf(states[i], j).Row? && RowOf(states[i], j).job.cancelled
    ensures RowOf(states[i], j).job.status.Running? || RowOf(states[i], j).job.status.Cancelled?
    ensures states[i].tickets[j].pc.Leaving? && !states[i].tickets[j].past.fault ==> RowOf(states[i], j).job.status.Cancelled?
  {
    ReachableInv(c, states[0]);
    if i > 0 {
      CancellationWins(c, states, events, i - 1, j);
      PathKeepsInv(c, states, events, i - 1);
      CancelledStays(c, states[i - 1], events[i - 1], j);
    }
    PathKeepsInv(c, states, events, i);
    CancelledOutcome(c, states[i], j);
  }

  lemma CancelledOutcome(c: Config, s: State, j: JobId)
    requires Inv(c, s) && j in s.tickets && RowOf(s, j).Row? && RowOf(s, j).job.cancelled
    ensures RowOf(s, j).job.status.Running? || RowOf(s, j).job.status.Cancelled?
    ensures s.tickets[j].pc.Leaving? && !s.tickets[j].past.fault ==> RowOf(s, j).job.status.Cancelled?
  {
    assert TicketOk(s.tickets[j], s.g.closed, s.rootCancelled, RowOf(s, j));
  }
}
