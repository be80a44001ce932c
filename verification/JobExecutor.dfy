/** The durable job executor of internal/app/job_executor.go as a transition system: one
    program counter per submitted job (the Submit call up to `go e.run`, then the runner),
    one for the closing goroutine, and free-running cancellers, reconcilers and background
    loops. Each event is one critical section, one store call or one context operation. */
module JobExecutor {
  import opened JobStore

  type JobId = nat

  datatype Config = Config(maxAdmitted: nat, maxConcurrent: nat)

  // ---------------------------------------------------------------------------
  // The fields guarded by `e.mu`
  // ---------------------------------------------------------------------------

  /** `registered` stands for the keys of `e.admitted`. */
  datatype Guarded = Guarded(closed: bool, registered: set<JobId>, admittedCount: int)

  datatype Admission = Admitted | ExecutorClosed | RootDone | QueueFull

  function ReserveOutcome(g: Guarded, rootDone: bool, maxAdmitted: nat): Admission {
    if g.closed then ExecutorClosed
    else if rootDone then RootDone
    else if g.admittedCount >= maxAdmitted then QueueFull
    else Admitted
  }

  function ReserveSlot(g: Guarded): Guarded {
    g.(admittedCount := g.admittedCount + 1)
  }

  function RegisterCancel(g: Guarded, id: JobId): Guarded {
    g.(registered := g.registered + {id})
  }

  function UnregisterCancel(g: Guarded, id: JobId): Guarded {
    g.(registered := g.registered - {id})
  }

  function ReleaseSlotCount(g: Guarded): Guarded {
    g.(admittedCount := g.admittedCount - 1)
  }

  // ---------------------------------------------------------------------------
  // State
  // ---------------------------------------------------------------------------

  /** Where a job's goroutine stands: the next thing it does. */
  datatype EnterPlace =
    | Reserved                            // marshal the request and insert the row
    | Created                             // register the cancel function, spawn the runner
    | Acquiring                           // slots.Acquire(jobCtx)
    | AcquireFailed                       // read rootCtx.Err()
    | DroppingQueued(slot: bool)          // write queued -> cancelled
    | CheckingClosed                      // read e.closed under e.mu
    | Starting                            // StartJobAs

  datatype FailPlace =
    | StartFailed                         // GetJob after a failed start
    | RecordingStartFailure(t: Transition)

  datatype RunPlace =
    | Executing                           // inside the JobFunc
    | ReadingBack                         // GetJob after the JobFunc
    | Judging                             // jobCtx.Err(), the JobFunc's error, marshalling
    | Finishing(t: Transition)            // finishJob: first write
    | Converting                          // finishJob: running -> cancelled after a refusal

  datatype LeavePlace =
    | FreeingSlot                         // slots.Release
    | Unregistering                       // delete(e.admitted, id)
    | CancellingOwn                       // the deferred cancel()
    | ReleasingAdmission                  // releaseAdmission
    | Done

  datatype Pc =
    | Entering(at: EnterPlace)
    | FailingStart(f: FailPlace)
    | InRun(r: RunPlace)
    | Leaving(l: LeavePlace)
  {
    /** Holds an admission reservation. */
    predicate Active() {
      this != Leaving(Done)
    }

    predicate HoldsSlot() {
      match this
      case Entering(at) => at.CheckingClosed? || at.Starting? || (at.DroppingQueued? && at.slot)
      case FailingStart(_) | InRun(_) => true
      case Leaving(l) => l.FreeingSlot?
    }

    /** The job's cancel function is in `e.admitted`. */
    predicate IsRegistered() {
      match this
      case Entering(at) => !at.Reserved? && !at.Created?
      case FailingStart(_) | InRun(_) => true
      case Leaving(l) => l.FreeingSlot? || l.Unregistering?
    }

    /** The deferred cancel() of the runner is still ahead. */
    predicate OwnCancelAhead() {
      this.Leaving? ==> l.FreeingSlot? || l.Unregistering? || l.CancellingOwn?
    }
  }

  /** History: how often the JobFunc was called, whether this runner's StartJobAs moved the row
      to running, whether the JobFunc returned a result that could be stored, whether the waiter
      gave up while the root context was still live, whether a store call failed, and whether
      somebody else ended the attempt (a start refused with an error, or another executor's
      reconciliation), and whether somebody requested the job's cancellation. */
  datatype Past = Past(calls: nat, claimed: bool, fnOk: bool, wokeEarly: bool, fault: bool, interrupted: bool, requested: bool)

  datatype Ticket = Ticket(pc: Pc, ctxCancelled: bool, past: Past) {
    function Faulted(pc: Pc): Ticket {
      Ticket(pc, ctxCancelled, past.(fault := true))
    }
  }

  const NEW_TICKET := Ticket(Entering(Reserved), false, Past(0, false, false, false, false, false, false))

  datatype CloserPc =
    | Open
    | CancellingJobs(todo: set<JobId>)
    | AboutToCheck                        // holds e.mu at the head of the wait loop
    | Parked                              // inside e.cond.Wait
    | Drained                             // backgroundWG.Wait, then DeleteJobOwner
    | Returned

  /** The durable row of a job, once Submit has inserted it. */
  datatype Row = NoRow | Row(job: Job)

  datatype State = State(
    g: Guarded,
    rootCancelled: bool,
    slotsUsed: int,
    tickets: map<JobId, Ticket>,
    rows: map<JobId, Row>,
    closer: CloserPc,
    background: nat,
    ownerRow: bool)

  const INITIAL := State(Guarded(false, {}, 0), false, 0, map[], map[], Open, 2, true)

  // ---------------------------------------------------------------------------
  // What a job's own goroutine does
  // ---------------------------------------------------------------------------

  /** How a store write ends: by its own rules, with an error that left the row alone, or with an
      error although it was applied. */
  datatype Effect = Normal | ErrorUnwritten | ErrorWritten

  /** `ok == false` is a failing store read. */
  datatype SubmitStep =
    | CreateFails(rowWritten: bool)
    | CreateRow
    | Register

  datatype WaitStep =
    | AcquireSlot
    | AcquireError
    | CheckRoot
    | DropQueued(effect: Effect)
    | CheckClosed

  datatype StartStep =
    | CallStart(effect: Effect)
    | ReadAfterStartFailure(ok: bool)
    | RecordStartFailure(effect: Effect)

  datatype WorkStep =
    | FnReturns(fnOk: bool)
    | ReadBack(ok: bool)
    | Judge(marshals: bool)
    | Finish(effect: Effect)
    | Convert(effect: Effect)

  datatype LeaveStep =
    | FreeSlot
    | Unregister
    | CancelOwn
    | ReleaseAdmission

  datatype Own = Submitting(a: SubmitStep) | Waiting(v: WaitStep) | StartUp(b: StartStep) | Work(w: WorkStep) | Leave(l: LeaveStep)

  /** A store write whose failure the runner ignores. */
  function BestEffort(t: Ticket, row: Row, effect: Effect, w: Transition, next: Pc): (Ticket, Row)
    requires row.Row?
  {
    match effect
    case Normal => (t.(pc := next), Row(TransitionJob(row.job, w)))
    case ErrorUnwritten => (t.Faulted(next), row)
    case ErrorWritten => (t.Faulted(next), Row(TransitionJob(row.job, w)))
  }

  predicate SubmitEnabled(a: SubmitStep, t: Ticket) {
    match a
    case CreateFails(_) | CreateRow => t.pc == Entering(Reserved)
    case Register => t.pc == Entering(Created)
  }

  /** The rest of Submit, up to spawning the runner. */
  function SubmitNext(a: SubmitStep, t: Ticket, row: Row): (Ticket, Row)
    requires SubmitEnabled(a, t)
  {
    match a
    case CreateFails(rowWritten) =>
      if rowWritten then (t.Faulted(Leaving(ReleasingAdmission)), Row(NEW_JOB))
      else (t.(pc := Leaving(ReleasingAdmission)), row)
    case CreateRow => (t.(pc := Entering(Created)), Row(NEW_JOB))
    case Register => (t.(pc := Entering(Acquiring)), row)
  }

  predicate WaitEnabled(v: WaitStep, t: Ticket, row: Row, root: bool) {
    match v
    case AcquireSlot => t.pc == Entering(Acquiring)
    case AcquireError => t.pc == Entering(Acquiring) && (t.ctxCancelled || root)
    case CheckRoot => t.pc == Entering(AcquireFailed)
    case DropQueued(_) => t.pc.Entering? && t.pc.at.DroppingQueued? && row.Row?
    case CheckClosed => t.pc == Entering(CheckingClosed)
  }

  function WaitNext(v: WaitStep, t: Ticket, row: Row, closed: bool, root: bool): (Ticket, Row)
    requires WaitEnabled(v, t, row, root)
  {
    match v
    case AcquireSlot => (t.(pc := Entering(CheckingClosed)), row)
    case AcquireError => (t.(pc := Entering(AcquireFailed)), row)
    case CheckRoot =>
      if root then (t.(pc := Entering(DroppingQueued(false))), row)
      else (t.(pc := Leaving(Unregistering), past := t.past.(wokeEarly := true)), row)
    case DropQueued(effect) =>
      BestEffort(t, row, effect, QueuedToCancelled, Leaving(if t.pc.at.slot then FreeingSlot else Unregistering))
    case CheckClosed => (t.(pc := Entering(if closed then DroppingQueued(true) else Starting)), row)
  }

  predicate StartEnabled(b: StartStep, t: Ticket, row: Row) {
    match b
    case CallStart(_) => t.pc == Entering(Starting) && row.Row?
    case ReadAfterStartFailure(_) => t.pc == FailingStart(StartFailed) && row.Row?
    case RecordStartFailure(_) => (t.pc.FailingStart? && t.pc.f.RecordingStartFailure?) && row.Row?
  }

  function StartNext(b: StartStep, t: Ticket, row: Row): (Ticket, Row)
    requires StartEnabled(b, t, row)
  {
    match b
    case CallStart(Normal) =>
      if StartOutcome(row.job).Applied? then
        (t.(pc := InRun(Executing), past := t.past.(claimed := true, calls := t.past.calls + 1)), Row(StartJob(row.job)))
      else
        (t.(pc := FailingStart(StartFailed)), row)
    case CallStart(ErrorUnwritten) => (t.(pc := FailingStart(StartFailed), past := t.past.(interrupted := true)), row)
    case CallStart(ErrorWritten) => (t.Faulted(FailingStart(StartFailed)), Row(StartJob(row.job)))
    case ReadAfterStartFailure(ok) =>
      if !ok then (t.Faulted(FailingStart(RecordingStartFailure(QueuedToFailed))), row)
      else if row.job.status.Terminal() then (t.(pc := Leaving(FreeingSlot)), row)
      else if row.job.status.Queued? then (t.(pc := FailingStart(RecordingStartFailure(QueuedToFailed))), row)
      else (t.(pc := FailingStart(RecordingStartFailure(RunningToFailed))), row)
    case RecordStartFailure(effect) => BestEffort(t, row, effect, t.pc.f.t, Leaving(FreeingSlot))
  }

  predicate WorkEnabled(w: WorkStep, t: Ticket, row: Row) {
    match w
    case FnReturns(_) => t.pc == InRun(Executing)
    case ReadBack(_) => t.pc == InRun(ReadingBack) && row.Row?
    case Judge(_) => t.pc == InRun(Judging)
    case Finish(_) => (t.pc.InRun? && t.pc.r.Finishing?) && row.Row?
    case Convert(_) => t.pc == InRun(Converting) && row.Row?
  }

  /** finishJob, with the caller's second attempt after a success that could not be written. */
  function FinishWrite(t: Ticket, row: Row, effect: Effect): (Ticket, Row)
    requires (t.pc.InRun? && t.pc.r.Finishing?) && row.Row?
  {
    var w := t.pc.r.t;
    var retry := if w.RunningToSucceeded? then InRun(Finishing(RunningToFailed)) else Leaving(FreeingSlot);
    if effect.ErrorUnwritten? then (t.Faulted(retry), row)
    else if effect.ErrorWritten? then (t.Faulted(retry), Row(TransitionJob(row.job, w)))
    else match TransitionOutcome(row.job, w)
         case Applied => (t.(pc := Leaving(FreeingSlot)), Row(TransitionJob(row.job, w)))
         case CancelPending => (t.(pc := InRun(Converting)), row)
         case WrongStatus => (t.(pc := retry), row)
  }

  function WorkNext(w: WorkStep, t: Ticket, row: Row, root: bool): (Ticket, Row)
    requires WorkEnabled(w, t, row)
  {
    match w
    case FnReturns(fnOk) => (t.(pc := InRun(ReadingBack), past := t.past.(fnOk := fnOk)), row)
    case ReadBack(ok) =>
      if !ok then (t.Faulted(InRun(Finishing(RunningToFailed))), row)
      else if row.job.cancelled then (t.(pc := InRun(Finishing(RunningToCancelled))), row)
      else (t.(pc := InRun(Judging)), row)
    case Judge(marshals) =>
      var stored := t.past.fnOk && marshals;
      var verdict := if t.ctxCancelled || root then RunningToCancelled
                     else if stored then RunningToSucceeded else RunningToFailed;
      (t.(pc := InRun(Finishing(verdict)), past := t.past.(fnOk := stored)), row)
    case Finish(effect) => FinishWrite(t, row, effect)
    case Convert(effect) => BestEffort(t, row, effect, RunningToCancelled, Leaving(FreeingSlot))
  }

  predicate LeaveEnabled(l: LeaveStep, t: Ticket) {
    match l
    case FreeSlot => t.pc == Leaving(FreeingSlot)
    case Unregister => t.pc == Leaving(Unregistering)
    case CancelOwn => t.pc == Leaving(CancellingOwn)
    case ReleaseAdmission => t.pc == Leaving(ReleasingAdmission)
  }

  /** The deferred calls of `run`, in the order they fire. */
  function LeaveNext(l: LeaveStep, t: Ticket): Ticket
    requires LeaveEnabled(l, t)
  {
    match l
    case FreeSlot => t.(pc := Leaving(Unregistering))
    case Unregister => t.(pc := Leaving(CancellingOwn))
    case CancelOwn => t.(pc := Leaving(ReleasingAdmission), ctxCancelled := true)
    case ReleaseAdmission => t.(pc := Leaving(Done))
  }

  predicate OwnEnabled(o: Own, t: Ticket, row: Row, root: bool) {
    match o
    case Submitting(a) => SubmitEnabled(a, t)
    case Waiting(v) => WaitEnabled(v, t, row, root)
    case StartUp(b) => StartEnabled(b, t, row)
    case Work(w) => WorkEnabled(w, t, row)
    case Leave(l) => LeaveEnabled(l, t)
  }

  /** The goroutine's place and its row after one of its steps. */
  function OwnNext(o: Own, t: Ticket, row: Row, closed: bool, root: bool): (Ticket, Row)
    requires OwnEnabled(o, t, row, root)
  {
    match o
    case Submitting(a) => SubmitNext(a, t, row)
    case Waiting(v) => WaitNext(v, t, row, closed, root)
    case StartUp(b) => StartNext(b, t, row)
    case Work(w) => WorkNext(w, t, row, root)
    case Leave(l) => (LeaveNext(l, t), row)
  }

  /** What a goroutine's step does to the fields guarded by `e.mu`. */
  function GuardedNext(o: Own, g: Guarded, j: JobId): Guarded {
    if o == Submitting(Register) then RegisterCancel(g, j)
    else if o == Leave(Unregister) then UnregisterCancel(g, j)
    else if o == Leave(ReleaseAdmission) then ReleaseSlotCount(g)
    else g
  }

  function SlotsNext(o: Own, slotsUsed: int): int {
    if o == Waiting(AcquireSlot) then slotsUsed + 1
    else if o == Leave(FreeSlot) then slotsUsed - 1
    else slotsUsed
  }

  // ---------------------------------------------------------------------------
  // Events
  // ---------------------------------------------------------------------------

  datatype Event =
    | Submit(j: JobId)                    // Submit past its guard
    | Owned(j: JobId, o: Own)
    | RequestCancel(j: JobId)             // RequestJobCancellation from any process
    | ReconcileRow(j: JobId)              // another executor's startup reconciliation
    | CancelContext(j: JobId)             // Cancel or watchCancellations, having seen the row stopped
    | CancelRootEarly                     // the parent context ends or the heartbeat lost its owner row
    | BackgroundExit
    | CloseBegin
    | CloseCancelJob(j: JobId)
    | CloseCancelRoot
    | CloseCheck
    | CloseDeleteOwner

  function RowOf(s: State, j: JobId): Row {
    if j in s.rows then s.rows[j] else NoRow
  }

  predicate Enabled(c: Config, s: State, e: Event) {
    match e
    case Submit(j) => j !in s.tickets && ReserveOutcome(s.g, s.rootCancelled, c.maxAdmitted).Admitted?
    case Owned(j, o) =>
      && j in s.tickets
      && OwnEnabled(o, s.tickets[j], RowOf(s, j), s.rootCancelled)
      && (o == Waiting(AcquireSlot) ==> s.slotsUsed < c.maxConcurrent)
    case RequestCancel(j) => j in s.tickets && RowOf(s, j).Row?
    case ReconcileRow(j) => j in s.tickets && RowOf(s, j).Row?
    case CancelContext(j) => j in s.tickets && RowOf(s, j).Row? && RowOf(s, j).job.Stopped()
    case CancelRootEarly => true
    case BackgroundExit => s.rootCancelled && s.background > 0
    case CloseBegin => !s.g.closed
    case CloseCancelJob(j) => s.closer.CancellingJobs? && j in s.closer.todo && j in s.tickets
    case CloseCancelRoot => s.closer == CancellingJobs({})
    case CloseCheck => s.closer.AboutToCheck?
    case CloseDeleteOwner => s.closer.Drained? && s.background == 0
  }

  function CancelTicket(s: State, j: JobId): map<JobId, Ticket>
    requires j in s.tickets
  {
    s.tickets[j := s.tickets[j].(ctxCancelled := true)]
  }

  function Next(c: Config, s: State, e: Event): State
    requires Enabled(c, s, e)
  {
    match e
    case Submit(j) =>
      s.(g := ReserveSlot(s.g), tickets := s.tickets[j := NEW_TICKET],
         rows := s.rows[j := NoRow])
    case Owned(j, o) =>
      var (t, row) := OwnNext(o, s.tickets[j], RowOf(s, j), s.g.closed, s.rootCancelled);
      var g := GuardedNext(o, s.g, j);
      s.(g := g, slotsUsed := SlotsNext(o, s.slotsUsed), tickets := s.tickets[j := t], rows := s.rows[j := row],
         closer := if o == Leave(ReleaseAdmission) && g.admittedCount == 0 && s.closer.Parked? then AboutToCheck else s.closer)
    case RequestCancel(j) =>
      s.(rows := s.rows[j := Row(RequestCancellation(s.rows[j].job))],
         tickets := s.tickets[j := s.tickets[j].(past := s.tickets[j].past.(requested := true))])
    case ReconcileRow(j) =>
      s.(rows := s.rows[j := Row(Reconcile(s.rows[j].job))],
         tickets := s.tickets[j := s.tickets[j].(past := s.tickets[j].past.(interrupted := true))])
    case CancelContext(j) => s.(tickets := CancelTicket(s, j))
    case CancelRootEarly => s.(rootCancelled := true)
    case BackgroundExit => s.(background := s.background - 1)
    case CloseBegin => s.(g := s.g.(closed := true), closer := CancellingJobs(s.g.registered))
    case CloseCancelJob(j) => s.(tickets := CancelTicket(s, j), closer := CancellingJobs(s.closer.todo - {j}))
    case CloseCancelRoot => s.(rootCancelled := true, closer := AboutToCheck)
    case CloseCheck => s.(closer := if s.g.admittedCount > 0 then Parked else Drained)
    case CloseDeleteOwner => s.(closer := Returned, ownerRow := false)
  }

  /** Any finite interleaving of enabled events. */
  ghost predicate IsPath(c: Config, states: seq<State>, events: seq<Event>) {
    && |states| == |events| + 1
    && forall i :: 0 <= i < |events| ==>
         Enabled(c, states[i], events[i]) && states[i + 1] == Next(c, states[i], events[i])
  }

  ghost predicate Reachable(c: Config, s: State) {
    exists states, events :: IsPath(c, states, events) && states[0] == INITIAL && states[|events|] == s
  }
}
