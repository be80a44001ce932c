/** Why a job ends as it does: nothing is cancelled without a cause, and a job that nothing
    interferes with runs once and ends as its function did. */
module JobExecutorOutcomes {
  import opened JobStore
  import opened JobExecutor
  import opened JobExecutorInvariant

  /** Somebody asked for a cancellation: Close, the end of the root context, or a request for
      this job. */
  predicate Wanted(t: Ticket, closed: bool, root: bool) {
    closed || root || t.past.requested
  }

  /** A cancelled row, and every step towards one, has a cause. */
  predicate CauseOk(t: Ticket, closed: bool, root: bool, row: Row) {
    && (row.Row? && row.job.cancelled ==> Wanted(t, closed, root))
    && match t.pc
       case Entering(at) => at.DroppingQueued? ==> closed || root
       case InRun(r) => r == Finishing(RunningToCancelled) ==> Wanted(t, closed, root) || (row.Row? && row.job.status.Terminal())
       case _ => true
  }

  /** Nothing from outside and no failing store call has touched the job. */
  predicate Undisturbed(t: Ticket, closed: bool, root: bool) {
    !Wanted(t, closed, root) && !t.past.fault && !t.past.interrupted
  }

  const RUNNING := Job(Running, true, false, false)

  /** The row of an undisturbed job, place by place. */
  predicate UndisturbedRow(t: Ticket, job: Job) {
    match t.pc
    case Entering(at) => job == NEW_JOB && !at.AcquireFailed? && !at.DroppingQueued?
    case FailingStart(_) => false
    case InRun(r) =>
      && job == RUNNING && !r.Converting?
      && (r.Finishing? ==> r.t == if t.past.fnOk then RunningToSucceeded else RunningToFailed)
    case Leaving(_) =>
      t.past.claimed && job == Job(if t.past.fnOk then Succeeded else Failed, true, true, false)
  }

  predicate OutcomeOk(t: Ticket, closed: bool, root: bool, row: Row) {
    && CauseOk(t, closed, root, row)
    && (Undisturbed(t, closed, root) && row.Row? ==> UndisturbedRow(t, row.job))
  }

  lemma SubmitOutcome(a: SubmitStep, t: Ticket, row: Row, closed: bool, root: bool)
    requires SubmitEnabled(a, t) && TicketOk(t, closed, root, row) && OutcomeOk(t, closed, root, row)
    ensures var (t', row') := SubmitNext(a, t, row); OutcomeOk(t', closed, root, row')
  {
  }

  lemma WaitOutcome(v: WaitStep, t: Ticket, row: Row, closed: bool, root: bool)
    requires WaitEnabled(v, t, row, root) && TicketOk(t, closed, root, row) && OutcomeOk(t, closed, root, row)
    ensures var (t', row') := WaitNext(v, t, row, closed, root); OutcomeOk(t', closed, root, row')
  {
  }

  lemma CallStartOutcome(e: Effect, t: Ticket, row: Row, closed: bool, root: bool)
    requires StartEnabled(CallStart(e), t, row) && TicketOk(t, closed, root, row) && OutcomeOk(t, closed, root, row)
    ensures var (t', row') := StartNext(CallStart(e), t, row); OutcomeOk(t', closed, root, row')
  {
  }

  lemma ReadAfterOutcome(ok: bool, t: Ticket, row: Row, closed: bool, root: bool)
    requires StartEnabled(ReadAfterStartFailure(ok), t, row) && TicketOk(t, closed, root, row) && OutcomeOk(t, closed, root, row)
    ensures var (t', row') := StartNext(ReadAfterStartFailure(ok), t, row); OutcomeOk(t', closed, root, row')
  {
  }

  lemma RecordOutcome(e: Effect, t: Ticket, row: Row, closed: bool, root: bool)
    requires StartEnabled(RecordStartFailure(e), t, row) && TicketOk(t, closed, root, row) && OutcomeOk(t, closed, root, row)
    ensures var (t', row') := StartNext(RecordStartFailure(e), t, row); OutcomeOk(t', closed, root, row')
  {
  }

  lemma StartStepOutcome(b: StartStep, t: Ticket, row: Row, closed: bool, root: bool)
    requires StartEnabled(b, t, row) && TicketOk(t, closed, root, row) && OutcomeOk(t, closed, root, row)
    ensures var (t', row') := StartNext(b, t, row); OutcomeOk(t', closed, root, row')
  {
    match b
    case CallStart(e) => CallStartOutcome(e, t, row, closed, root);
    case ReadAfterStartFailure(ok) => ReadAfterOutcome(ok, t, row, closed, root);
    case RecordStartFailure(e) => RecordOutcome(e, t, row, closed, root);
  }

  lemma FinishOutcome(e: Effect, t: Ticket, row: Row, closed: bool, root: bool)
    requires WorkEnabled(Finish(e), t, row) && TicketOk(t, closed, root, row) && OutcomeOk(t, closed, root, row)
    ensures var (t', row') := FinishWrite(t, row, e); OutcomeOk(t', closed, root, row')
  {
  }

  lemma WorkOutcome(w: WorkStep, t: Ticket, row: Row, closed: bool, root: bool)
    requires WorkEnabled(w, t, row) && TicketOk(t, closed, root, row) && OutcomeOk(t, closed, root, row)
    ensures var (t', row') := WorkNext(w, t, row, root); OutcomeOk(t', closed, root, row')
  {
    if w.Finish? {
      FinishOutcome(w.effect, t, row, closed, root);
    }
  }

  lemma LeaveOutcome(l: LeaveStep, t: Ticket, row: Row, closed: bool, root: bool)
    requires LeaveEnabled(l, t) && TicketOk(t, closed, root, row) && OutcomeOk(t, closed, root, row)
    ensures OutcomeOk(LeaveNext(l, t), closed, root, row)
  {
  }

  lemma OwnOutcome(o: Own, t: Ticket, row: Row, closed: bool, root: bool)
    requires OwnEnabled(o, t, row, root) && TicketOk(t, closed, root, row) && OutcomeOk(t, closed, root, row)
    ensures var (t', row') := OwnNext(o, t, row, closed, root); OutcomeOk(t', closed, root, row')
  {
    match o
    case Submitting(a) => SubmitOutcome(a, t, row, closed, root);
    case Waiting(v) => WaitOutcome(v, t, row, closed, root);
    case StartUp(b) => StartStepOutcome(b, t, row, closed, root);
    case Work(w) => WorkOutcome(w, t, row, closed, root);
    case Leave(l) => LeaveOutcome(l, t, row, closed, root);
  }

  lemma RequestedOutcome(t: Ticket, row: Row, closed: bool, root: bool)
    requires TicketOk(t, closed, root, row) && OutcomeOk(t, closed, root, row) && row.Row?
    ensures OutcomeOk(t.(past := t.past.(requested := true)), closed, root, Row(RequestCancellation(row.job)))
  {
  }

  lemma ReconciledOutcome(t: Ticket, row: Row, closed: bool, root: bool)
    requires TicketOk(t, closed, root, row) && OutcomeOk(t, closed, root, row) && row.Row?
    ensures OutcomeOk(t.(past := t.past.(interrupted := true)), closed, root, Row(Reconcile(row.job)))
  {
  }

  lemma OutsideOutcome(t: Ticket, row: Row, closed: bool, root: bool)
    requires TicketOk(t, closed, root, row) && OutcomeOk(t, closed, root, row)
    ensures OutcomeOk(t.(ctxCancelled := true), closed, root, row)
    ensures OutcomeOk(t, true, root, row) && OutcomeOk(t, closed, true, row)
  {
  }

  ghost predicate OutcomeOkIn(s: State, i: JobId)
    requires i in s.tickets
  {
    OutcomeOk(s.tickets[i], s.g.closed, s.rootCancelled, RowOf(s, i))
  }

  ghost predicate OutcomesOk(s: State) {
    forall i :: i in s.tickets ==> OutcomeOkIn(s, i)
  }

  lemma OwnOutcomeStep(c: Config, s: State, j: JobId, o: Own, i: JobId)
    requires Enabled(c, s, Owned(j, o)) && TicketsOk(s) && OutcomesOk(s) && i in s.tickets
    ensures i in Next(c, s, Owned(j, o)).tickets && OutcomeOkIn(Next(c, s, Owned(j, o)), i)
  {
    if j == i {
      OwnOutcomeAt(c, s, j, o);
    } else {
      OwnEffect(c, s, j, o);
      assert OutcomeOkIn(s, i);
      assert RowOf(Next(c, s, Owned(j, o)), i) == RowOf(s, i);
    }
  }

  lemma OwnOutcomeAt(c: Config, s: State, j: JobId, o: Own)
    requires Enabled(c, s, Owned(j, o)) && TicketsOk(s) && OutcomesOk(s)
    ensures OutcomeOkIn(Next(c, s, Owned(j, o)), j)
  {
    assert OutcomeOkIn(s, j) && TicketOkIn(s, j);
    OwnOutcome(o, s.tickets[j], RowOf(s, j), s.g.closed, s.rootCancelled);
    OwnEffect(c, s, j, o);
    assert RowOf(Next(c, s, Owned(j, o)), j) == OwnNext(o, s.tickets[j], RowOf(s, j), s.g.closed, s.rootCancelled).1;
  }

  lemma OutsideOutcomeStep(c: Config, s: State, e: Event, i: JobId)
    requires Enabled(c, s, e) && Inv(c, s) && OutcomesOk(s) && !e.Owned? && !e.Submit? && i in s.tickets
    ensures i in Next(c, s, e).tickets && OutcomeOkIn(Next(c, s, e), i)
  {
    assert OutcomeOkIn(s, i) && TicketOkIn(s, i);
    OutsideEffect(c, s, e, i);
    var t, row := s.tickets[i], RowOf(s, i);
    if e.RequestCancel? && e.j == i {
      RequestedOutcome(t, row, s.g.closed, s.rootCancelled);
    } else if e.ReconcileRow? && e.j == i {
      ReconciledOutcome(t, row, s.g.closed, s.rootCancelled);
    } else {
      OutsideOutcome(t, row, s.g.closed, s.rootCancelled);
    }
  }

  lemma StepKeepsOutcomes(c: Config, s: State, e: Event)
    requires Enabled(c, s, e) && Inv(c, s) && OutcomesOk(s)
    ensures OutcomesOk(Next(c, s, e))
  {
    forall i | i in Next(c, s, e).tickets
      ensures OutcomeOkIn(Next(c, s, e), i)
    {
      if e.Owned? {
        OwnOutcomeStep(c, s, e.j, e.o, i);
      } else if !e.Submit? {
        OutsideOutcomeStep(c, s, e, i);
      } else if i in s.tickets {
        assert OutcomeOkIn(s, i);
      }
    }
  }

  lemma {:induction false} PathKeepsOutcomes(c: Config, states: seq<State>, events: seq<Event>, i: nat)
    requires IsPath(c, states, events) && states[0] == INITIAL && Inv(c, states[0]) && i < |states|
    ensures OutcomesOk(states[i])
  {
    if i > 0 {
      PathKeepsOutcomes(c, states, events, i - 1);
      PathKeepsInv(c, states, events, i - 1);
      StepKeepsOutcomes(c, states[i - 1], events[i - 1]);
    }
  }

  lemma ReachableOutcomes(c: Config, s: State)
    requires Reachable(c, s)
    ensures Inv(c, s) && OutcomesOk(s)
  {
    ReachableInv(c, s);
    var states, events :| IsPath(c, states, events) && states[0] == INITIAL && states[|events|] == s;
    assert ActiveJobs(INITIAL.tickets) == {} && SlotHolders(INITIAL.tickets) == {};
    PathKeepsOutcomes(c, states, events, |events|);
  }

  /** What the history says of the function's result is what the function returned and the
      marshaller made of it; nothing else changes it. */
  lemma ResultRecorded(o: Own, t: Ticket, row: Row, closed: bool, root: bool)
    requires OwnEnabled(o, t, row, root)
    ensures var past := OwnNext(o, t, row, closed, root).0.past;
            past.fnOk == (match o
                          case Work(FnReturns(ok)) => ok
                          case Work(Judge(marshals)) => t.past.fnOk && marshals
                          case _ => t.past.fnOk)
  {
    match o
    case Submitting(a) =>
    case Waiting(v) => WaitKeepsResult(v, t, row, closed, root);
    case StartUp(b) => StartKeepsResult(b, t, row);
    case Work(w) => WorkRecordsResult(w, t, row, root);
    case Leave(l) =>
  }

  lemma WorkRecordsResult(w: WorkStep, t: Ticket, row: Row, root: bool)
    requires WorkEnabled(w, t, row)
    ensures WorkNext(w, t, row, root).0.past.fnOk ==
            (if w.FnReturns? then w.fnOk else if w.Judge? then t.past.fnOk && w.marshals else t.past.fnOk)
  {
  }

  lemma WaitKeepsResult(v: WaitStep, t: Ticket, row: Row, closed: bool, root: bool)
    requires WaitEnabled(v, t, row, root)
    ensures WaitNext(v, t, row, closed, root).0.past.fnOk == t.past.fnOk
  {
  }

  lemma StartKeepsResult(b: StartStep, t: Ticket, row: Row)
    requires StartEnabled(b, t, row)
    ensures StartNext(b, t, row).0.past.fnOk == t.past.fnOk
  {
    if b.RecordStartFailure? {
      RecordKeepsPast(b.effect, t, row);
    }
  }

  lemma RecordKeepsPast(e: Effect, t: Ticket, row: Row)
    requires StartEnabled(RecordStartFailure(e), t, row)
    ensures StartNext(RecordStartFailure(e), t, row).0.past.fnOk == t.past.fnOk
  {
  }

  /** In every reachable state a cancelled job, or one whose cancellation is recorded, was asked to
      stop: the executor is closed, its root context is over, or somebody requested it. */
  lemma CancelledHasCause(c: Config, s: State, j: JobId)
    requires Reachable(c, s) && j in s.tickets && RowOf(s, j).Row?
    ensures RowOf(s, j).job.cancelled || RowOf(s, j).job.status.Cancelled? ==>
              s.g.closed || s.rootCancelled || s.tickets[j].past.requested
  {
    ReachableOutcomes(c, s);
    assert OutcomeOkIn(s, j) && TicketOkIn(s, j);
  }

  /** On an open executor with a live root context, a job that nobody asked to cancel, no other
      executor reconciled and no store call failed for has its function called exactly once by
      the time its goroutine is gone, and has succeeded if and only if the function returned a
      result that could be stored, and failed otherwise. */
  lemma UndisturbedJobRuns(c: Config, s: State, j: JobId)
    requires Reachable(c, s) && j in s.tickets && RowOf(s, j).Row? && s.tickets[j].pc == Leaving(Done)
    requires !s.g.closed && !s.rootCancelled && !s.tickets[j].past.requested
    requires !s.tickets[j].past.fault && !s.tickets[j].past.interrupted
    ensures var past, job := s.tickets[j].past, RowOf(s, j).job;
            && past.calls == 1
            && (job.status.Succeeded? <==> past.fnOk) && (job.status.Failed? <==> !past.fnOk)
            && job.started && job.completed && !job.cancelled
  {
    ReachableOutcomes(c, s);
    assert OutcomeOkIn(s, j) && TicketOkIn(s, j);
  }

  // ---------------------------------------------------------------------------
  // A stop that comes in time
  // ---------------------------------------------------------------------------

  /** The job's context is over, its function or its verdict still ahead, or some verdict other
      than success behind it. */
  predicate NoSuccessAhead(t: Ticket, root: bool, row: Row) {
    && row.Row? && !row.job.status.Succeeded?
    && match t.pc
       case InRun(r) =>
         (match r
          case Finishing(w) => !w.RunningToSucceeded?
          case Converting => true
          case _ => t.ctxCancelled || root)
       case Leaving(_) => true
       case _ => false
  }

  lemma WorkNoSuccess(w: WorkStep, t: Ticket, row: Row, closed: bool, root: bool)
    requires WorkEnabled(w, t, row) && NoSuccessAhead(t, root, row)
    ensures var (t', row') := WorkNext(w, t, row, root); NoSuccessAhead(t', root, row')
  {
    if w.Finish? {
      FinishNoSuccess(w.effect, t, row, root);
    }
  }

  lemma FinishNoSuccess(e: Effect, t: Ticket, row: Row, root: bool)
    requires WorkEnabled(Finish(e), t, row) && NoSuccessAhead(t, root, row)
    ensures var (t', row') := FinishWrite(t, row, e); NoSuccessAhead(t', root, row')
  {
  }

  lemma OwnNoSuccess(o: Own, t: Ticket, row: Row, closed: bool, root: bool)
    requires OwnEnabled(o, t, row, root) && NoSuccessAhead(t, root, row)
    ensures var (t', row') := OwnNext(o, t, row, closed, root); NoSuccessAhead(t', root, row')
  {
    if o.Work? {
      WorkNoSuccess(o.w, t, row, closed, root);
    }
  }

  lemma StepNoSuccess(c: Config, s: State, e: Event, j: JobId)
    requires Enabled(c, s, e) && j in s.tickets && NoSuccessAhead(s.tickets[j], s.rootCancelled, RowOf(s, j))
    ensures var s' := Next(c, s, e); j in s'.tickets && NoSuccessAhead(s'.tickets[j], s'.rootCancelled, RowOf(s', j))
  {
    if e.Owned? {
      OwnEffect(c, s, e.j, e.o);
      if e.j == j {
        OwnNoSuccess(e.o, s.tickets[j], RowOf(s, j), s.g.closed, s.rootCancelled);
      }
    } else if !e.Submit? {
      OutsideEffect(c, s, e, j);
    }
  }

  /** A job whose own context or whose executor's root context is over before the verdict on its
      function is taken does not succeed, in any continuation. */
  lemma {:induction false} StoppedInTimeNeverSucceeds(c: Config, states: seq<State>, events: seq<Event>, i: nat, j: JobId)
    requires IsPath(c, states, events) && Reachable(c, states[0]) && i < |states| && j in states[0].tickets
    requires states[0].tickets[j].pc in {InRun(Executing), InRun(ReadingBack), InRun(Judging)}
    requires states[0].tickets[j].ctxCancelled || states[0].rootCancelled
    ensures j in states[i].tickets && RowOf(states[i], j).Row? && !RowOf(states[i], j).job.status.Succeeded?
  {
    StoppedPath(c, states, events, i, j);
  }

  lemma {:induction false} StoppedPath(c: Config, states: seq<State>, events: seq<Event>, i: nat, j: JobId)
    requires IsPath(c, states, events) && Reachable(c, states[0]) && i < |states| && j in states[0].tickets
    requires states[0].tickets[j].pc in {InRun(Executing), InRun(ReadingBack), InRun(Judging)}
    requires states[0].tickets[j].ctxCancelled || states[0].rootCancelled
    ensures j in states[i].tickets && NoSuccessAhead(states[i].tickets[j], states[i].rootCancelled, RowOf(states[i], j))
  {
    if i == 0 {
      ReachableInv(c, states[0]);
      assert TicketOkIn(states[0], j);
    } else {
      StoppedPath(c, states, events, i - 1, j);
      StepNoSuccess(c, states[i - 1], events[i - 1], j);
    }
  }
}
