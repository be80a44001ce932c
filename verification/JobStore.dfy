/** The durable job rows of internal/corpus/jobs.go: one row per job, changed only by
    guarded single-statement updates. Timestamps are reduced to whether they are set. */
module JobStore {

  datatype Status = Queued | Running | Succeeded | Failed | Cancelled {
    predicate Terminal() {
      Succeeded? || Failed? || Cancelled?
    }
  }

  datatype Job = Job(status: Status, started: bool, completed: bool, cancelled: bool) {
    /** Another process has stopped this job: what `StoppedJobIDs` reports. */
    predicate Stopped() {
      cancelled || status.Terminal()
    }

    /** The combinations of status and timestamps that `parseJobState` accepts. */
    predicate Parses() {
      match status
      case Queued => !started && !completed && !cancelled
      case Running => started && !completed
      case Succeeded | Failed => completed && !cancelled
      case Cancelled => completed && cancelled
    }
  }

  datatype Transition =
    | QueuedToCancelled
    | QueuedToFailed
    | RunningToSucceeded
    | RunningToFailed
    | RunningToCancelled
  {
    function From(): Status {
      match this
      case QueuedToCancelled | QueuedToFailed => Queued
      case RunningToSucceeded | RunningToFailed | RunningToCancelled => Running
    }

    function To(): Status {
      match this
      case QueuedToCancelled | RunningToCancelled => Cancelled
      case QueuedToFailed | RunningToFailed => Failed
      case RunningToSucceeded => Succeeded
    }
  }

  /** How a terminal write ends when the store itself does not fail. */
  datatype WriteOutcome = Applied | CancelPending | WrongStatus

  const NEW_JOB := Job(Queued, false, false, false)

  function StartOutcome(job: Job): WriteOutcome {
    if job.status.Queued? && !job.cancelled then Applied
    else if job.cancelled && !job.status.Terminal() then CancelPending
    else WrongStatus
  }

  function StartJob(job: Job): Job {
    if StartOutcome(job).Applied? then job.(status := Running, started := true) else job
  }

  function TransitionOutcome(job: Job, t: Transition): WriteOutcome {
    if job.status != t.From() then WrongStatus
    else if job.cancelled && !t.To().Cancelled? then CancelPending
    else Applied
  }

  function TransitionJob(job: Job, t: Transition): Job {
    if TransitionOutcome(job, t).Applied? then
      Job(t.To(), job.started, true, job.cancelled || t.To().Cancelled?)
    else
      job
  }

  function RequestCancellation(job: Job): Job {
    match job.status
    case Queued => Job(Cancelled, job.started, true, true)
    case Running => job.(cancelled := true)
    case _ => job
  }

  /** What startup reconciliation writes to a row whose owner no longer heartbeats. */
  function Reconcile(job: Job): Job {
    if job.status.Terminal() then job
    else job.(status := if job.cancelled then Cancelled else Failed, completed := true)
  }

  /** Everything any process can do to an existing row. */
  datatype Op = Start | Write(t: Transition) | Cancel | Reconciled

  function Perform(job: Job, op: Op): Job {
    match op
    case Start => StartJob(job)
    case Write(t) => TransitionJob(job, t)
    case Cancel => RequestCancellation(job)
    case Reconciled => Reconcile(job)
  }

  function Replay(job: Job, ops: seq<Op>): Job
    decreases ops
  {
    if ops == [] then job else Replay(Perform(job, ops[0]), ops[1..])
  }

  /** What each operation achieves on a row it may touch: a request stops a queued job at once and
      marks a running one, reconciliation ends every unfinished one, a start and a transition move
      exactly the rows in their source state that no cancellation forbids, and leave others alone. */
  lemma OperationsTakeEffect(job: Job, t: Transition)
    requires job.Parses()
    ensures !job.status.Terminal() ==> RequestCancellation(job).cancelled
    ensures job.status.Queued? ==> RequestCancellation(job).status.Cancelled?
    ensures job.status.Running? ==> RequestCancellation(job).status.Running?
    ensures !job.status.Terminal() ==> Reconcile(job).status == if job.cancelled then Cancelled else Failed
    ensures job.status.Queued? && !job.cancelled <==> StartJob(job) != job
    ensures StartJob(job) != job ==> StartJob(job).status.Running?
    ensures job.status == t.From() && (job.cancelled ==> t in {QueuedToCancelled, RunningToCancelled}) <==>
              TransitionJob(job, t) != job
    ensures TransitionJob(job, t) != job ==> TransitionJob(job, t).status == t.To()
    ensures t.From() == (if t in {QueuedToCancelled, QueuedToFailed} then Queued else Running)
    ensures t.To() == (if t in {QueuedToCancelled, RunningToCancelled} then Cancelled
                       else if t in {QueuedToFailed, RunningToFailed} then Failed else Succeeded)
  {
  }

  /** Whatever processes do to a row and in whatever order: the row stays one that
      `parseJobState` accepts, a terminal row never changes again, and a recorded
      cancellation request stays recorded, so it can only end as cancelled. */
  lemma {:induction false} RowHistory(job: Job, ops: seq<Op>)
    requires job.Parses()
    ensures Replay(job, ops).Parses()
    ensures job.status.Terminal() ==> Replay(job, ops) == job
    ensures job.cancelled ==> Replay(job, ops).cancelled
    ensures job.cancelled && Replay(job, ops).status.Terminal() ==> Replay(job, ops).status.Cancelled?
    decreases ops
  {
    if ops != [] {
      RowHistory(Perform(job, ops[0]), ops[1..]);
    }
  }

  /** Which statuses a history can reach at all: success needs a start that found the row
      queued, after which no write recorded a cancellation before the success write did. */
  lemma {:induction false} SuccessNeedsStart(job: Job, ops: seq<Op>)
    requires job.Parses() && !job.status.Succeeded?
    ensures Replay(job, ops).status.Succeeded? ==>
              job.status.Running? || exists i :: 0 <= i < |ops| && ops[i].Start?
    ensures Replay(job, ops).status.Succeeded? ==>
              exists i :: 0 <= i < |ops| && ops[i] == Write(RunningToSucceeded) && !Replay(job, ops[..i]).cancelled
    decreases ops
  {
    if ops != [] {
      var next := Perform(job, ops[0]);
      assert ops[..0] == [];
      if next.status.Succeeded? {
        RowHistory(next, ops[1..]);
        assert ops[0] == Write(RunningToSucceeded) && !Replay(job, ops[..0]).cancelled;
      } else {
        SuccessNeedsStart(next, ops[1..]);
        if Replay(next, ops[1..]).status.Succeeded? {
          var i :| 0 <= i < |ops[1..]| && ops[1..][i] == Write(RunningToSucceeded) && !Replay(next, ops[1..][..i]).cancelled;
          assert ops[..i + 1][1..] == ops[1..][..i];
          assert ops[i + 1] == Write(RunningToSucceeded) && !Replay(job, ops[..i + 1]).cancelled;
          if !job.status.Running? && !ops[0].Start? {
            var k :| 0 <= k < |ops[1..]| && ops[1..][k].Start?;
            assert ops[k + 1].Start?;
          }
        }
      }
    }
  }
}
