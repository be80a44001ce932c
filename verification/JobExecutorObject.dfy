/** The mutex-protected half of the executor as an object: each method is one critical section
    of internal/app/job_executor.go. The ghost set of reservations is what the counter is meant
    to count; a state of the transition system in JobExecutor is such an object. */
module JobExecutorObject {
  import opened JobExecutor
  import opened JobExecutorInvariant

  type CancelFunc = nat

  class Executor {
    const maxAdmitted: nat
    var closed: bool
    var rootCancelled: bool
    var admitted: map<JobId, CancelFunc>
    var admittedCount: int
    ghost var reserved: set<JobId>        // jobs between Submit's guard and releaseAdmission

    /** The counter counts the reservations, within the bound, and only they are registered. */
    ghost predicate Valid()
      reads this
    {
      admittedCount == |reserved| <= maxAdmitted && admitted.Keys <= reserved
    }

    constructor (maxAdmitted: nat)
      ensures Valid() && reserved == {} && !closed && Represents(Config(maxAdmitted, 0), INITIAL)
    {
      this.maxAdmitted := maxAdmitted;
      closed, rootCancelled, admitted, admittedCount, reserved := false, false, map[], 0, {};
      new;
      assert ActiveJobs(INITIAL.tickets) == {};
    }

    /** The object is the guarded part of a state of the transition system. */
    ghost predicate Represents(c: Config, s: State)
      reads this
    {
      && maxAdmitted == c.maxAdmitted && rootCancelled == s.rootCancelled
      && s.g == Guarded(closed, admitted.Keys, admittedCount) && reserved == ActiveJobs(s.tickets)
    }

    /** The guard of Submit, for a job not reserved yet. It admits exactly when the transition
        system could, and then the job holds a reservation within the bound. */
    method Reserve(ghost j: JobId) returns (outcome: Admission)
      requires Valid() && j !in reserved
      modifies this`admittedCount, this`reserved
      ensures Valid() && reserved == (if outcome.Admitted? then old(reserved) + {j} else old(reserved))
      ensures outcome.Admitted? <==> !closed && !rootCancelled && |old(reserved)| < maxAdmitted
      ensures outcome.ExecutorClosed? <==> closed
      ensures outcome.QueueFull? ==> |reserved| == maxAdmitted
      ensures forall c, s :: old(Represents(c, s)) && j !in s.tickets ==>
                (outcome.Admitted? <==> Enabled(c, s, Submit(j)))
                && (outcome.Admitted? ==> Represents(c, Next(c, s, Submit(j))))
    {
      if closed {
        return ExecutorClosed;
      }
      if rootCancelled {
        return RootDone;
      }
      if admittedCount >= maxAdmitted {
        return QueueFull;
      }
      admittedCount := admittedCount + 1;
      reserved := reserved + {j};
      forall c, s | old(Represents(c, s)) && j !in s.tickets
        ensures Represents(c, Next(c, s, Submit(j)))
      {
        SubmitCensus(s.tickets, j);
      }
      outcome := Admitted;
    }

    /** A reserved job's cancel function becomes visible to Cancel, the watcher and Close. */
    method Register(id: JobId, cancel: CancelFunc)
      requires Valid() && id in reserved
      modifies this`admitted
      ensures Valid() && id in admitted && admitted[id] == cancel
      ensures forall other :: other != id ==>
                (other in admitted <==> other in old(admitted)) && (other in admitted ==> admitted[other] == old(admitted[other]))
      ensures forall c, s :: old(Represents(c, s)) && Reachable(c, s) && Enabled(c, s, Owned(id, Submitting(SubmitStep.Register))) ==>
                Represents(c, Next(c, s, Owned(id, Submitting(SubmitStep.Register))))
    {
      admitted := admitted[id := cancel];
      forall c, s | old(Represents(c, s)) && Reachable(c, s) && Enabled(c, s, Owned(id, Submitting(SubmitStep.Register)))
        ensures Represents(c, Next(c, s, Owned(id, Submitting(SubmitStep.Register))))
      {
        OwnStepOnFields(c, s, id, Submitting(SubmitStep.Register));
      }
    }

    /** The job can no longer be cancelled through the executor; its reservation stays. */
    method Unregister(id: JobId)
      requires Valid() && id in reserved
      modifies this`admitted
      ensures Valid() && id !in admitted
      ensures forall other :: other != id ==>
                (other in admitted <==> other in old(admitted)) && (other in admitted ==> admitted[other] == old(admitted[other]))
      ensures forall c, s :: old(Represents(c, s)) && Reachable(c, s) && Enabled(c, s, Owned(id, Leave(LeaveStep.Unregister))) ==>
                Represents(c, Next(c, s, Owned(id, Leave(LeaveStep.Unregister))))
    {
      admitted := admitted - {id};
      forall c, s | old(Represents(c, s)) && Reachable(c, s) && Enabled(c, s, Owned(id, Leave(LeaveStep.Unregister)))
        ensures Represents(c, Next(c, s, Owned(id, Leave(LeaveStep.Unregister))))
      {
        OwnStepOnFields(c, s, id, Leave(LeaveStep.Unregister));
      }
    }

    /** The last deferred call of a runner, after it unregistered. The counter never falls below
        zero, and the waiting closer is woken exactly when no reservation is left. */
    method ReleaseAdmission(ghost id: JobId) returns (broadcast: bool)
      requires Valid() && id in reserved && id !in admitted
      modifies this`admittedCount, this`reserved
      ensures Valid() && reserved == old(reserved) - {id}
      ensures admittedCount >= 0 && (broadcast <==> reserved == {})
      ensures forall c, s :: old(Represents(c, s)) && Reachable(c, s) && Enabled(c, s, Owned(id, Leave(LeaveStep.ReleaseAdmission))) ==>
                Represents(c, Next(c, s, Owned(id, Leave(LeaveStep.ReleaseAdmission))))
    {
      admittedCount := admittedCount - 1;
      reserved := reserved - {id};
      broadcast := admittedCount == 0;
      forall c, s | old(Represents(c, s)) && Reachable(c, s) && Enabled(c, s, Owned(id, Leave(LeaveStep.ReleaseAdmission)))
        ensures Represents(c, Next(c, s, Owned(id, Leave(LeaveStep.ReleaseAdmission))))
      {
        OwnStepOnFields(c, s, id, Leave(LeaveStep.ReleaseAdmission));
      }
    }

    /** The first critical section of Close. From here on nothing is admitted, so reservations
        only shrink; the one caller that drains takes the cancel function of every job that is
        registered, all of them reserved. */
    method BeginClose() returns (first: bool, cancels: map<JobId, CancelFunc>)
      requires Valid()
      modifies this`closed
      ensures Valid() && closed && (first <==> !old(closed))
      ensures cancels.Keys <= reserved
      ensures first ==> forall j :: j in admitted <==> j in cancels
      ensures first ==> forall j :: j in cancels ==> cancels[j] == admitted[j]
      ensures !first ==> cancels == map[]
      ensures first ==> forall c, s :: old(Represents(c, s)) ==> Enabled(c, s, CloseBegin) && Represents(c, Next(c, s, CloseBegin))
    {
      if closed {
        return false, map[];
      }
      closed := true;
      return true, admitted;
    }
  }

  /** Every reachable state of the transition system is a valid object. */
  lemma ReachableIsValid(c: Config, s: State, e: Executor)
    requires Reachable(c, s) && e.Represents(c, s)
    ensures e.Valid()
  {
    ReachableInv(c, s);
  }

  lemma OwnStepGuarded(c: Config, s: State, j: JobId, o: Own)
    requires Enabled(c, s, Owned(j, o))
    ensures Next(c, s, Owned(j, o)).g == GuardedNext(o, s.g, j)
  {
  }

  /** What a goroutine's own step does to the guarded fields and the reservations. */
  lemma OwnStepOnFields(c: Config, s: State, j: JobId, o: Own)
    requires Reachable(c, s) && Enabled(c, s, Owned(j, o))
    ensures var s' := Next(c, s, Owned(j, o));
            && s'.g == GuardedNext(o, s.g, j) && s'.rootCancelled == s.rootCancelled
            && j in ActiveJobs(s.tickets)
            && ActiveJobs(s'.tickets) == ActiveJobs(s.tickets) - (if o == Leave(ReleaseAdmission) then {j} else {})
            && (o == Leave(ReleaseAdmission) ==> j !in s.g.registered)
  {
    ReachableInv(c, s);
    assert TicketOkIn(s, j);
    OwnStepOk(o, s.tickets[j], RowOf(s, j), s.g.closed, s.rootCancelled);
    OwnEffect(c, s, j, o);
    OwnStepGuarded(c, s, j, o);
    CensusStep(s.tickets, j, OwnNext(o, s.tickets[j], RowOf(s, j), s.g.closed, s.rootCancelled).0);
  }

  /** In every reachable state the steps that register, unregister and release meet the
      preconditions of the object's methods, and no other step of a goroutine touches the
      fields. */
  lemma OwnStepsFitObject(c: Config, s: State, j: JobId, o: Own, e: Executor)
    requires Reachable(c, s) && Enabled(c, s, Owned(j, o)) && e.Represents(c, s)
    ensures e.Valid() && j in e.reserved && (o == Leave(ReleaseAdmission) ==> j !in e.admitted)
    ensures o !in {Submitting(Register), Leave(Unregister), Leave(ReleaseAdmission)} ==>
              e.Represents(c, Next(c, s, Owned(j, o)))
  {
    ReachableIsValid(c, s, e);
    OwnStepOnFields(c, s, j, o);
  }
}
