/** The inductive invariant of the executor: the counters count the right goroutines, the
    closer's place agrees with them, and every row agrees with its goroutine's place. */
module JobExecutorInvariant {
  import opened JobStore
  import opened JobExecutor

  ghost function ActiveJobs(tickets: map<JobId, Ticket>): set<JobId> {
    set j | j in tickets && tickets[j].pc.Active()
  }

  ghost function SlotHolders(tickets: map<JobId, Ticket>): set<JobId> {
    set j | j in tickets && tickets[j].pc.HoldsSlot()
  }

  ghost function RegisteredJobs(tickets: map<JobId, Ticket>): set<JobId> {
    set j | j in tickets && tickets[j].pc.IsRegistered()
  }

  /** The counters say what they are meant to count. */
  ghost predicate CountsOk(c: Config, s: State) {
    && s.g.admittedCount == |ActiveJobs(s.tickets)| <= c.maxAdmitted
    && s.slotsUsed == |SlotHolders(s.tickets)| <= c.maxConcurrent
    && s.g.registered == RegisteredJobs(s.tickets)
    && s.rows.Keys == s.tickets.Keys
  }

  ghost predicate ClosingOk(s: State) {
    && (s.closer.Open? <==> !s.g.closed)
    && (s.closer.AboutToCheck? || s.closer.Parked? || s.closer.Drained? || s.closer.Returned? ==> s.rootCancelled)
    && (s.closer.Parked? ==> s.g.admittedCount > 0)
    && (s.closer.Drained? || s.closer.Returned? ==> s.g.admittedCount == 0)
    && (s.closer.Returned? ==> s.background == 0)
    && (s.ownerRow <==> !s.closer.Returned?)
  }

  /** What a job's row may look like while its goroutine stands at a given place. */
  predicate RowOk(t: Ticket, job: Job) {
    && job.Parses()
    && (job.status.Succeeded? ==> t.past.claimed && t.past.calls == 1 && t.past.fnOk)
    && (job.status.Failed? ==> t.past.fault || t.past.interrupted || (t.past.claimed && !t.past.fnOk))
    && match t.pc
       case Entering(_) => !job.status.Running? && !job.status.Succeeded?
       case FailingStart(f) =>
         && !job.status.Succeeded?
         && (job.status.Running? ==> t.past.fault)
         && (job.status.Queued? ==> t.past.fault || t.past.interrupted)
         && (f.RecordingStartFailure? ==> f.t.QueuedToFailed? || (f.t.RunningToFailed? && t.past.fault))
       case InRun(r) =>
         && !job.status.Queued? && (job.status.Succeeded? ==> r.Finishing? && t.past.fault)
         && (job.status.Failed? ==> t.past.fault || t.past.interrupted)
         && (r.Finishing? ==> FinishOk(t, r.t, job))
         && (r.Converting? ==> job.cancelled)
       case Leaving(_) => !job.status.Terminal() ==> t.past.fault || (t.past.wokeEarly && job.status.Queued?)
  }

  /** A success is written only for a storable result; a failure for anything else, for a
      failing store, or as the second attempt after a success that found the row taken. */
  predicate FinishOk(t: Ticket, w: Transition, job: Job) {
    match w
    case RunningToSucceeded => t.past.fnOk
    case RunningToFailed => !t.past.fnOk || t.past.fault || job.status.Terminal()
    case RunningToCancelled => true
    case _ => false
  }

  predicate TicketOk(t: Ticket, closed: bool, root: bool, row: Row) {
    && (t.pc == Entering(Reserved) ==> row.NoRow?)
    && (row.NoRow? ==> t.pc == Entering(Reserved) || t.pc == Leaving(ReleasingAdmission) || t.pc == Leaving(Done))
    && (row.Row? ==> RowOk(t, row.job))
    && t.past.calls == (if t.past.claimed then 1 else 0)
    && (t.pc.Entering? || t.pc.FailingStart? ==> !t.past.claimed)
    && (t.pc.InRun? ==> t.past.claimed)
    && (t.past.wokeEarly ==> t.pc.Leaving? && !t.past.claimed)
    && (t.pc == Entering(AcquireFailed) ==> t.ctxCancelled || root)
    && (t.ctxCancelled && t.pc.OwnCancelAhead() ==> closed || root || (row.Row? && row.job.Stopped()))
    && (t.past.wokeEarly && row.Row? && !row.job.status.Terminal() ==> closed)
  }

  ghost predicate TicketsOk(s: State) {
    forall j :: j in s.tickets ==> TicketOk(s.tickets[j], s.g.closed, s.rootCancelled, RowOf(s, j))
  }

  ghost predicate Inv(c: Config, s: State) {
    CountsOk(c, s) && ClosingOk(s) && TicketsOk(s)
  }

  function One(b: bool): int {
    if b then 1 else 0
  }

  lemma Resize(before: set<JobId>, after: set<JobId>, j: JobId, member: bool)
    requires after == if member then before + {j} else before - {j}
    ensures |after| == |before| + One(member) - One(j in before)
  {
  }

  /** Moving one goroutine changes each census by at most that goroutine. */
  lemma CensusStep(tickets: map<JobId, Ticket>, j: JobId, t: Ticket)
    ensures ActiveJobs(tickets[j := t]) ==
            if t.pc.Active() then ActiveJobs(tickets) + {j} else ActiveJobs(tickets) - {j}
    ensures SlotHolders(tickets[j := t]) ==
            if t.pc.HoldsSlot() then SlotHolders(tickets) + {j} else SlotHolders(tickets) - {j}
    ensures RegisteredJobs(tickets[j := t]) ==
            if t.pc.IsRegistered() then RegisteredJobs(tickets) + {j} else RegisteredJobs(tickets) - {j}
  {
  }

  lemma CensusSizes(tickets: map<JobId, Ticket>, j: JobId, t: Ticket)
    ensures |ActiveJobs(tickets[j := t])| ==
            |ActiveJobs(tickets)| + One(t.pc.Active()) - One(j in tickets && tickets[j].pc.Active())
    ensures |SlotHolders(tickets[j := t])| ==
            |SlotHolders(tickets)| + One(t.pc.HoldsSlot()) - One(j in tickets && tickets[j].pc.HoldsSlot())
  {
    CensusStep(tickets, j, t);
    Resize(ActiveJobs(tickets), ActiveJobs(tickets[j := t]), j, t.pc.Active());
    Resize(SlotHolders(tickets), SlotHolders(tickets[j := t]), j, t.pc.HoldsSlot());
  }

  /** A goroutine's own step gains or loses a reservation, a slot or a registration exactly
      when it touches the matching counter. */
  ghost predicate CensusMatches(o: Own, from: Pc, to: Pc) {
    && from.Active() && (to.Active() <==> o != Leave(ReleaseAdmission))
    && (to.HoldsSlot() <==> (from.HoldsSlot() && o != Leave(FreeSlot)) || o == Waiting(AcquireSlot))
    && (o == Waiting(AcquireSlot) ==> !from.HoldsSlot()) && (o == Leave(FreeSlot) ==> from.HoldsSlot())
    && (to.IsRegistered() <==> (from.IsRegistered() && o != Leave(Unregister)) || o == Submitting(Register))
  }

  lemma SubmitStepOk(a: SubmitStep, t: Ticket, row: Row, closed: bool, root: bool)
    requires SubmitEnabled(a, t) && TicketOk(t, closed, root, row)
    ensures var (t', row') := SubmitNext(a, t, row);
            TicketOk(t', closed, root, row') && CensusMatches(Submitting(a), t.pc, t'.pc)
  {
  }

  lemma DropQueuedOk(e: Effect, t: Ticket, row: Row, closed: bool, root: bool)
    requires WaitEnabled(DropQueued(e), t, row, root) && TicketOk(t, closed, root, row)
    ensures var (t', row') := WaitNext(DropQueued(e), t, row, closed, root);
            TicketOk(t', closed, root, row') && CensusMatches(Waiting(DropQueued(e)), t.pc, t'.pc)
  {
  }

  lemma WaitStepOk(v: WaitStep, t: Ticket, row: Row, closed: bool, root: bool)
    requires WaitEnabled(v, t, row, root) && TicketOk(t, closed, root, row)
    ensures var (t', row') := WaitNext(v, t, row, closed, root);
            TicketOk(t', closed, root, row') && CensusMatches(Waiting(v), t.pc, t'.pc)
  {
    if v.DropQueued? {
      DropQueuedOk(v.effect, t, row, closed, root);
    }
  }

  lemma CallStartOk(e: Effect, t: Ticket, row: Row, closed: bool, root: bool)
    requires StartEnabled(CallStart(e), t, row) && TicketOk(t, closed, root, row)
    ensures var (t', row') := StartNext(CallStart(e), t, row);
            TicketOk(t', closed, root, row') && CensusMatches(StartUp(CallStart(e)), t.pc, t'.pc)
  {
  }

  lemma RecordStartFailureOk(e: Effect, t: Ticket, row: Row, closed: bool, root: bool)
    requires StartEnabled(RecordStartFailure(e), t, row) && TicketOk(t, closed, root, row)
    ensures var (t', row') := StartNext(RecordStartFailure(e), t, row);
            TicketOk(t', closed, root, row') && CensusMatches(StartUp(RecordStartFailure(e)), t.pc, t'.pc)
  {
  }

  lemma ReadAfterStartFailureOk(ok: bool, t: Ticket, row: Row, closed: bool, root: bool)
    requires StartEnabled(ReadAfterStartFailure(ok), t, row) && TicketOk(t, closed, root, row)
    ensures var (t', row') := StartNext(ReadAfterStartFailure(ok), t, row);
            TicketOk(t', closed, root, row') && CensusMatches(StartUp(ReadAfterStartFailure(ok)), t.pc, t'.pc)
  {
  }

  lemma StartStepOk(b: StartStep, t: Ticket, row: Row, closed: bool, root: bool)
    requires StartEnabled(b, t, row) && TicketOk(t, closed, root, row)
    ensures var (t', row') := StartNext(b, t, row);
            TicketOk(t', closed, root, row') && CensusMatches(StartUp(b), t.pc, t'.pc)
  {
    match b
    case CallStart(e) => CallStartOk(e, t, row, closed, root);
    case ReadAfterStartFailure(ok) => ReadAfterStartFailureOk(ok, t, row, closed, root);
    case RecordStartFailure(e) => RecordStartFailureOk(e, t, row, closed, root);
  }

  lemma FinishStepOk(e: Effect, t: Ticket, row: Row, closed: bool, root: bool)
    requires WorkEnabled(Finish(e), t, row) && TicketOk(t, closed, root, row)
    ensures var (t', row') := FinishWrite(t, row, e);
            TicketOk(t', closed, root, row') && CensusMatches(Work(Finish(e)), t.pc, t'.pc)
  {
  }

  lemma ConvertStepOk(e: Effect, t: Ticket, row: Row, closed: bool, root: bool)
    requires WorkEnabled(Convert(e), t, row) && TicketOk(t, closed, root, row)
    ensures var (t', row') := BestEffort(t, row, e, RunningToCancelled, Leaving(FreeingSlot));
            TicketOk(t', closed, root, row') && CensusMatches(Work(Convert(e)), t.pc, t'.pc)
  {
  }

  lemma WorkStepOk(w: WorkStep, t: Ticket, row: Row, closed: bool, root: bool)
    requires WorkEnabled(w, t, row) && TicketOk(t, closed, root, row)
    ensures var (t', row') := WorkNext(w, t, row, root);
            TicketOk(t', closed, root, row') && CensusMatches(Work(w), t.pc, t'.pc)
  {
    match w
    case Finish(e) => FinishStepOk(e, t, row, closed, root);
    case Convert(e) => ConvertStepOk(e, t, row, closed, root);
    case _ =>
  }

  lemma LeaveStepOk(l: LeaveStep, t: Ticket, row: Row, closed: bool, root: bool)
    requires LeaveEnabled(l, t) && TicketOk(t, closed, root, row)
    ensures var t' := LeaveNext(l, t);
            TicketOk(t', closed, root, row) && CensusMatches(Leave(l), t.pc, t'.pc)
  {
  }

  lemma OwnStepOk(o: Own, t: Ticket, row: Row, closed: bool, root: bool)
    requires OwnEnabled(o, t, row, root) && TicketOk(t, closed, root, row)
    ensures var (t', row') := OwnNext(o, t, row, closed, root);
            TicketOk(t', closed, root, row') && CensusMatches(o, t.pc, t'.pc)
  {
    match o
    case Submitting(a) => SubmitStepOk(a, t, row, closed, root);
    case Waiting(v) => WaitStepOk(v, t, row, closed, root);
    case StartUp(b) => StartStepOk(b, t, row, closed, root);
    case Work(w) => WorkStepOk(w, t, row, closed, root);
    case Leave(l) => LeaveStepOk(l, t, row, closed, root);
  }

  /** What other goroutines and processes do to a job keeps its invariant too. */
  lemma OutsideOk(t: Ticket, row: Row, closed: bool, root: bool)
    requires TicketOk(t, closed, root, row)
    ensures row.Row? ==> TicketOk(t.(past := t.past.(requested := true)), closed, root, Row(RequestCancellation(row.job)))
    ensures row.Row? ==> TicketOk(t.(past := t.past.(interrupted := true)), closed, root, Row(Reconcile(row.job)))
    ensures closed || root || (row.Row? && row.job.Stopped()) ==> TicketOk(t.(ctxCancelled := true), closed, root, row)
    ensures TicketOk(t, true, root, row) && TicketOk(t, closed, true, row)
  {
  }

  ghost predicate TicketOkIn(s: State, i: JobId)
    requires i in s.tickets
  {
    TicketOk(s.tickets[i], s.g.closed, s.rootCancelled, RowOf(s, i))
  }

  /** What a goroutine's own step does to the state, seen from its ticket. */
  lemma OwnEffect(c: Config, s: State, j: JobId, o: Own)
    requires Enabled(c, s, Owned(j, o))
    ensures var (s', (t, row)) := (Next(c, s, Owned(j, o)), OwnNext(o, s.tickets[j], RowOf(s, j), s.g.closed, s.rootCancelled));
            && s'.tickets == s.tickets[j := t] && s'.rows == s.rows[j := row]
            && s'.g.closed == s.g.closed && s'.rootCancelled == s.rootCancelled
  {
  }

  /** A goroutine's own step leaves every other ticket alone. */
  lemma OwnTicketsStep(c: Config, s: State, j: JobId, o: Own, i: JobId)
    requires Enabled(c, s, Owned(j, o)) && TicketsOk(s) && i in s.tickets
    ensures i in Next(c, s, Owned(j, o)).tickets && TicketOkIn(Next(c, s, Owned(j, o)), i)
  {
    assert TicketOkIn(s, i);
    OwnEffect(c, s, j, o);
    if j == i {
      OwnStepOk(o, s.tickets[i], RowOf(s, i), s.g.closed, s.rootCancelled);
    }
  }

  /** What any other event does to a job that exists already. */
  function OutsideTicket(e: Event, t: Ticket, i: JobId): Ticket {
    if e == RequestCancel(i) then t.(past := t.past.(requested := true))
    else if e == ReconcileRow(i) then t.(past := t.past.(interrupted := true))
    else if e == CancelContext(i) || e == CloseCancelJob(i) then t.(ctxCancelled := true)
    else t
  }

  function OutsideRow(e: Event, row: Row, i: JobId): Row {
    if row.NoRow? then row
    else if e == RequestCancel(i) then Row(RequestCancellation(row.job))
    else if e == ReconcileRow(i) then Row(Reconcile(row.job))
    else row
  }

  lemma OutsideEffect(c: Config, s: State, e: Event, i: JobId)
    requires Enabled(c, s, e) && !e.Owned? && !e.Submit? && i in s.tickets
    ensures var s' := Next(c, s, e);
            && i in s'.tickets && s'.tickets[i] == OutsideTicket(e, s.tickets[i], i)
            && RowOf(s', i) == OutsideRow(e, RowOf(s, i), i)
            && s'.g.closed == (s.g.closed || e.CloseBegin?)
            && s'.rootCancelled == (s.rootCancelled || e.CancelRootEarly? || e.CloseCancelRoot?)
    ensures e == RequestCancel(i) || e == ReconcileRow(i) ==> RowOf(s, i).Row?
    ensures e == CancelContext(i) ==> RowOf(s, i).Row? && RowOf(s, i).job.Stopped()
    ensures e == CloseCancelJob(i) ==> s.closer.CancellingJobs?
  {
  }

  lemma OutsideTicketsStep(c: Config, s: State, e: Event, i: JobId)
    requires Enabled(c, s, e) && Inv(c, s) && !e.Owned? && !e.Submit? && i in s.tickets
    ensures i in Next(c, s, e).tickets && TicketOkIn(Next(c, s, e), i)
  {
    assert TicketOkIn(s, i);
    OutsideEffect(c, s, e, i);
    OutsideOk(s.tickets[i], RowOf(s, i), s.g.closed, s.rootCancelled);
  }

  lemma TicketsStep(c: Config, s: State, e: Event, i: JobId)
    requires Enabled(c, s, e) && Inv(c, s) && i in Next(c, s, e).tickets
    ensures TicketOkIn(Next(c, s, e), i)
  {
    if e.Owned? {
      OwnTicketsStep(c, s, e.j, e.o, i);
    } else if !e.Submit? {
      OutsideTicketsStep(c, s, e, i);
    } else if i in s.tickets {
      assert TicketOkIn(s, i);
    }
  }

  lemma OwnCounts(tickets: map<JobId, Ticket>, j: JobId, o: Own, t: Ticket, g: Guarded)
    requires j in tickets && CensusMatches(o, tickets[j].pc, t.pc)
    ensures GuardedNext(o, g, j).admittedCount - |ActiveJobs(tickets[j := t])| == g.admittedCount - |ActiveJobs(tickets)|
    ensures |ActiveJobs(tickets[j := t])| <= |ActiveJobs(tickets)|
    ensures |SlotHolders(tickets[j := t])| == SlotsNext(o, |SlotHolders(tickets)|)
    ensures g.registered == RegisteredJobs(tickets) ==>
              GuardedNext(o, g, j).registered == RegisteredJobs(tickets[j := t])
  {
    CensusSizes(tickets, j, t);
    CensusStep(tickets, j, t);
  }

  lemma OwnCountsStep(c: Config, s: State, j: JobId, o: Own)
    requires Enabled(c, s, Owned(j, o)) && CountsOk(c, s)
    requires TicketOk(s.tickets[j], s.g.closed, s.rootCancelled, RowOf(s, j))
    ensures CountsOk(c, Next(c, s, Owned(j, o)))
  {
    OwnStepOk(o, s.tickets[j], RowOf(s, j), s.g.closed, s.rootCancelled);
    var t := OwnNext(o, s.tickets[j], RowOf(s, j), s.g.closed, s.rootCancelled).0;
    OwnCounts(s.tickets, j, o, t, s.g);
  }

  /** An event that moves no goroutine leaves every census alone. */
  lemma SameCensus(tickets: map<JobId, Ticket>, j: JobId, t: Ticket)
    requires j in tickets && tickets[j].pc == t.pc
    ensures ActiveJobs(tickets[j := t]) == ActiveJobs(tickets)
    ensures SlotHolders(tickets[j := t]) == SlotHolders(tickets)
    ensures RegisteredJobs(tickets[j := t]) == RegisteredJobs(tickets)
    ensures tickets[j := t].Keys == tickets.Keys
  {
  }

  /** A new reservation enters the active census and no other. */
  lemma SubmitCensus(tickets: map<JobId, Ticket>, j: JobId)
    requires j !in tickets
    ensures j !in ActiveJobs(tickets) && ActiveJobs(tickets[j := NEW_TICKET]) == ActiveJobs(tickets) + {j}
    ensures SlotHolders(tickets[j := NEW_TICKET]) == SlotHolders(tickets)
    ensures RegisteredJobs(tickets[j := NEW_TICKET]) == RegisteredJobs(tickets)
  {
    CensusStep(tickets, j, NEW_TICKET);
  }

  lemma SubmitCountsStep(c: Config, s: State, j: JobId)
    requires Enabled(c, s, Submit(j)) && CountsOk(c, s)
    ensures CountsOk(c, Next(c, s, Submit(j)))
  {
    SubmitCensus(s.tickets, j);
  }

  lemma OtherCountsStep(c: Config, s: State, e: Event)
    requires Enabled(c, s, e) && CountsOk(c, s) && !e.Owned? && !e.Submit?
    ensures CountsOk(c, Next(c, s, e))
  {
    if e.CancelContext? || e.CloseCancelJob? {
      SameCensus(s.tickets, e.j, s.tickets[e.j].(ctxCancelled := true));
    } else if e.RequestCancel? {
      SameCensus(s.tickets, e.j, s.tickets[e.j].(past := s.tickets[e.j].past.(requested := true)));
    } else if e.ReconcileRow? {
      SameCensus(s.tickets, e.j, s.tickets[e.j].(past := s.tickets[e.j].past.(interrupted := true)));
    } else {
      assert Next(c, s, e).tickets == s.tickets;
      assert Next(c, s, e).rows.Keys == s.rows.Keys;
    }
  }

  lemma ClosingStep(c: Config, s: State, e: Event)
    requires Enabled(c, s, e) && Inv(c, s)
    ensures ClosingOk(Next(c, s, e))
  {
    if e.Owned? {
      OwnStepOk(e.o, s.tickets[e.j], RowOf(s, e.j), s.g.closed, s.rootCancelled);
      assert e.j in ActiveJobs(s.tickets);
    }
  }

  lemma StepKeepsInv(c: Config, s: State, e: Event)
    requires Enabled(c, s, e) && Inv(c, s)
    ensures Inv(c, Next(c, s, e))
  {
    if e.Owned? {
      OwnCountsStep(c, s, e.j, e.o);
    } else if e.Submit? {
      SubmitCountsStep(c, s, e.j);
    } else {
      OtherCountsStep(c, s, e);
    }
    ClosingStep(c, s, e);
    forall i | i in Next(c, s, e).tickets
      ensures TicketOkIn(Next(c, s, e), i)
    {
      TicketsStep(c, s, e, i);
    }
  }

  lemma {:induction false} PathKeepsInv(c: Config, states: seq<State>, events: seq<Event>, i: nat)
    requires IsPath(c, states, events) && Inv(c, states[0]) && i < |states|
    ensures Inv(c, states[i])
  {
    if i > 0 {
      PathKeepsInv(c, states, events, i - 1);
      StepKeepsInv(c, states[i - 1], events[i - 1]);
    }
  }

  lemma ReachableInv(c: Config, s: State)
    requires Reachable(c, s)
    ensures Inv(c, s)
  {
    assert ActiveJobs(INITIAL.tickets) == {} && SlotHolders(INITIAL.tickets) == {};
    var states, events :| IsPath(c, states, events) && states[0] == INITIAL && states[|events|] == s;
    PathKeepsInv(c, states, events, |events|);
  }

  lemma ReachableNext(c: Config, s: State, e: Event)
    requires Reachable(c, s) && Enabled(c, s, e)
    ensures Reachable(c, Next(c, s, e))
  {
    var states, events :| IsPath(c, states, events) && states[0] == INITIAL && states[|events|] == s;
    var states', events' := states + [Next(c, s, e)], events + [e];
    forall i | 0 <= i < |events'|
      ensures Enabled(c, states'[i], events'[i]) && states'[i + 1] == Next(c, states'[i], events'[i])
    {
      if i < |events| {
        assert states'[i] == states[i] && states'[i + 1] == states[i + 1] && events'[i] == events[i];
      }
    }
    assert IsPath(c, states', events');
  }
}
