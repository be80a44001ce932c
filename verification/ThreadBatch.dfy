/** A whole thread batch: group, plan, run the pool, regroup, summarise
    (syncThreadsBatch in internal/app/mcp_scalable_operations.go). */
module ThreadBatch {
  import opened Options
  import opened ThreadGroups
  import opened RequestPlan
  import opened WorkerPool

  /** `stored` says whether the corpus holds a repository; `serve` is what one worker's call for
      a funded task produces. */
  datatype Provider = Provider(stored: string -> bool, serve: Task -> Item) {
    /** A call answers for its own task and stays within its grant. */
    ghost predicate Valid() {
      forall task :: Honest(task, serve(task))
    }

    ghost predicate Honest(task: Task, item: Item) {
      item.OfTask() && item.key == TaskKey(task.repo, task.kind) && item.RequestsUsed() <= task.maxRequests
    }
  }

  function PoolBatch(p: Provider, plan: Plan): Batch<Item> {
    Batch(plan.runnable, plan.slots, (i: nat) => if i < |plan.tasks| then p.serve(plan.tasks[i]) else p.serve(Task("", "", [], [], 0)))
  }

  /** `slots` is the result slice some uncancelled schedule of the pool leaves behind. */
  ghost predicate PoolLeaves(b: Batch<Item>, slots: seq<Option<Item>>) {
    exists workers: nat, states, steps :: IsRun(b, workers, states, steps) && LeavesBehind(states[|states| - 1], slots)
  }

  ghost predicate LeavesBehind(s: State<Item>, slots: seq<Option<Item>>) {
    s.returned && !s.cancelled && s.results == slots
  }

  /** What each task ends with: its refusal, or the answer of its one call. */
  function OutcomeOf(p: Provider, q: Request, i: nat): Item
    requires q.Valid() && i < |q.tasks|
  {
    if GrantAt(q, i) == 0 then Refusal(q, i) else p.serve(q.tasks[i].(maxRequests := GrantAt(q, i)))
  }

  function Outcomes(p: Provider, q: Request): seq<Item>
    requires q.Valid()
  {
    seq(|q.tasks|, i requires 0 <= i < |q.tasks| => OutcomeOf(p, q, i))
  }

  /** Every schedule of the pool leaves every task exactly its own outcome. */
  lemma ScheduleIrrelevant(p: Provider, q: Request, plan: Plan, slots: seq<Option<Item>>)
    requires q.Valid() && PlanOk(q, plan, |q.tasks|) && PoolLeaves(PoolBatch(p, plan), slots)
    ensures |slots| == |q.tasks| && forall i :: 0 <= i < |slots| ==> slots[i] == Some(OutcomeOf(p, q, i))
  {
    var b := PoolBatch(p, plan);
    assert b.Valid();
    var workers: nat, states, steps :| IsRun(b, workers, states, steps) && LeavesBehind(states[|states| - 1], slots);
    PoolRefinesSequentialMap(b, workers, states, steps, |states| - 1);
    forall i | 0 <= i < |slots|
      ensures slots[i] == Some(OutcomeOf(p, q, i))
    {
      MapAt(b, |b.runnable|, i);
      assert b.runnable[..|b.runnable|] == b.runnable;
      assert Settled(q, plan, i);
    }
  }

  function TotalUsed(items: seq<Item>, n: nat): nat
    requires n <= |items|
  {
    if n == 0 then 0 else TotalUsed(items, n - 1) + items[n - 1].RequestsUsed()
  }

  /** Only the requests of successful tasks are counted, each once. */
  lemma UsedOneMore(items: seq<Item>, n: nat)
    requires n < |items|
    ensures TotalUsed(items, n + 1) - TotalUsed(items, n) == match items[n] case Success(_, requests, _) => requests case _ => 0
  {
  }

  lemma {:induction false} UsedWithinGrants(p: Provider, q: Request, n: nat)
    requires q.Valid() && p.Valid() && n <= |q.tasks|
    ensures TotalUsed(Outcomes(p, q), n) <= TotalGranted(q, n)
  {
    if n > 0 {
      UsedWithinGrants(p, q, n - 1);
      var task := q.tasks[n - 1].(maxRequests := GrantAt(q, n - 1));
      assert p.Honest(task, p.serve(task));
    }
  }

  lemma OutcomesAreOfTasks(p: Provider, q: Request, i: nat)
    requires q.Valid() && p.Valid() && i < |q.tasks|
    ensures OutcomeOf(p, q, i).OfTask() && OutcomeOf(p, q, i).key == TaskKey(q.tasks[i].repo, q.tasks[i].kind)
  {
    var task := q.tasks[i].(maxRequests := GrantAt(q, i));
    assert p.Honest(task, p.serve(task));
  }

  method PlanBatch(p: Provider, tasks: seq<Task>, limitPerRepository: nat, budget: nat) returns (q: Request, plan: Plan)
    requires forall t :: 0 <= t < |tasks| ==> tasks[t].maxRequests == 0
    ensures q.Valid() && PlanOk(q, plan, |q.tasks|)
    ensures q.tasks == tasks && q.pages == MaxPages(limitPerRepository) && q.budget == budget
    ensures forall t :: 0 <= t < |tasks| ==> q.stored[t] == p.stored(tasks[t].repo)
  {
    q := Request(tasks, seq(|tasks|, t requires 0 <= t < |tasks| => p.stored(tasks[t].repo)),
                 MaxPages(limitPerRepository), budget);
    plan := PlanRequests(q);
  }

  method Collect(p: Provider, q: Request, plan: Plan, slots: seq<Option<Item>>) returns (outcomes: seq<Item>)
    requires q.Valid() && PlanOk(q, plan, |q.tasks|) && PoolLeaves(PoolBatch(p, plan), slots)
    ensures outcomes == Outcomes(p, q)
  {
    ScheduleIrrelevant(p, q, plan, slots);
    outcomes := seq(|slots|, i requires 0 <= i < |slots| && slots[i].Some? => slots[i].value);
  }

  datatype Summary = Summary(items: seq<Item>, completed: nat, partial: bool, requests: nat)

  function CompleteItems(items: seq<Item>): set<nat> {
    set i | 0 <= i < |items| && items[i].Complete()
  }

  /** `requests` counts the group outcomes, not their fanned-out copies. */
  method Summarise(outcomes: seq<Item>, items: seq<Item>) returns (s: Summary)
    ensures s.items == items && s.requests == TotalUsed(outcomes, |outcomes|)
    ensures s.completed == |CompleteItems(items)| <= |items|
    ensures s.partial <==> exists i :: 0 <= i < |items| && !items[i].Complete()
    ensures s.partial <==> s.completed < |items|
  {
    var requests := 0;
    for t := 0 to |outcomes|
      invariant requests == TotalUsed(outcomes, t)
    {
      requests := requests + outcomes[t].RequestsUsed();
    }
    var completed, partial := 0, false;
    assert CompleteItems(items[..0]) == {};
    for i := 0 to |items|
      invariant completed == |CompleteItems(items[..i])| <= i && (partial <==> completed < i)
      invariant partial <==> exists j :: 0 <= j < i && !items[j].Complete()
    {
      assert CompleteItems(items[..i + 1]) == CompleteItems(items[..i]) + if items[i].Complete() then {i} else {};
      if items[i].Complete() {
        completed := completed + 1;
      } else {
        partial := true;
      }
    }
    assert items[..|items|] == items;
    s := Summary(items, completed, partial, requests);
  }

  /** The thread at input position i: its own key, and the outcome of the task that holds it. */
  ghost predicate AnswersThread(p: Provider, q: Request, threads: seq<Target>, items: seq<Item>, i: nat)
    requires q.Valid() && |items| == |threads| && i < |threads|
  {
    && items[i].key == ThreadKey(threads[i])
    && exists t :: Assigned(q.tasks, i, t) && KeyOf(q.tasks[t]) == (threads[i].repo, threads[i].kind)
                   && Some(items[i]) == ForExactThread(OutcomeOf(p, q, t), threads[i])
  }

  /** The batch for exactly selected threads, from any schedule of its pool: the projection
      error cannot happen, every input gets exactly its own answer, and requests stay within
      the planned share of the budget. */
  method FinishExactBatch(p: Provider, threads: seq<Target>, q: Request, plan: Plan, slots: seq<Option<Item>>)
    returns (failed: bool, s: Summary)
    requires p.Valid() && q.Valid() && Partitions(threads, q.tasks)
    requires PlanOk(q, plan, |q.tasks|) && PoolLeaves(PoolBatch(p, plan), slots)
    ensures !failed && |s.items| == |threads|
    ensures forall i :: 0 <= i < |threads| ==> AnswersThread(p, q, threads, s.items, i)
    ensures s.requests == TotalUsed(Outcomes(p, q), |q.tasks|) <= plan.planned <= q.budget
    ensures s.partial <==> exists i :: 0 <= i < |threads| && !s.items[i].Complete()
    ensures s.completed == |CompleteItems(s.items)|
  {
    var outcomes := Collect(p, q, plan, slots);
    forall t | 0 <= t < |outcomes|
      ensures outcomes[t].OfTask()
    {
      OutcomesAreOfTasks(p, q, t);
    }
    var items;
    failed, items := FanOut(threads, q.tasks, outcomes);
    forall i | 0 <= i < |threads|
      ensures AnswersThread(p, q, threads, items, i)
    {
      DeliveredAnswers(p, q, threads, outcomes, items, i);
    }
    UsedWithinGrants(p, q, |q.tasks|);
    s := Summarise(outcomes, if failed then [] else items);
  }

  lemma DeliveredAnswers(p: Provider, q: Request, threads: seq<Target>, outcomes: seq<Item>, items: seq<Item>, i: nat)
    requires q.Valid() && Partitions(threads, q.tasks) && i < |threads| == |items| && outcomes == Outcomes(p, q)
    requires forall i, t :: Delivered(threads, q.tasks, outcomes, items, i, t)
    ensures AnswersThread(p, q, threads, items, i)
  {
    var t, k := AssignmentUnique(threads, q.tasks, i);
    assert Assigned(q.tasks, i, t);
    assert Delivered(threads, q.tasks, outcomes, items, i, t);
    assert outcomes[t] == OutcomeOf(p, q, t);
  }

  /** The batch for whole repositories returns the task outcomes themselves. */
  method FinishRepositoryBatch(p: Provider, q: Request, plan: Plan, slots: seq<Option<Item>>) returns (s: Summary)
    requires p.Valid() && q.Valid() && PlanOk(q, plan, |q.tasks|) && PoolLeaves(PoolBatch(p, plan), slots)
    ensures |s.items| == |q.tasks| && forall t :: 0 <= t < |q.tasks| ==> s.items[t] == OutcomeOf(p, q, t)
    ensures s.requests == TotalUsed(s.items, |q.tasks|) <= plan.planned <= q.budget
    ensures s.partial <==> exists i :: 0 <= i < |s.items| && !s.items[i].Complete()
    ensures s.completed == |CompleteItems(s.items)|
  {
    var outcomes := Collect(p, q, plan, slots);
    UsedWithinGrants(p, q, |q.tasks|);
    s := Summarise(outcomes, outcomes);
  }

  /** Fanning out neither hides nor invents an incomplete outcome: all threads are answered
      completely exactly when all tasks end complete. */
  lemma CompleteIff(p: Provider, q: Request, threads: seq<Target>, items: seq<Item>)
    requires p.Valid() && q.Valid() && Partitions(threads, q.tasks) && |items| == |threads|
    requires forall i :: 0 <= i < |threads| ==> AnswersThread(p, q, threads, items, i)
    ensures (forall i :: 0 <= i < |threads| ==> items[i].Complete())
       <==> (forall t :: 0 <= t < |q.tasks| ==> OutcomeOf(p, q, t).Complete())
  {
    forall i | 0 <= i < |threads| && forall t :: 0 <= t < |q.tasks| ==> OutcomeOf(p, q, t).Complete()
      ensures items[i].Complete()
    {
      assert AnswersThread(p, q, threads, items, i);
    }
    if forall i :: 0 <= i < |threads| ==> items[i].Complete() {
      forall t | 0 <= t < |q.tasks|
        ensures OutcomeOf(p, q, t).Complete()
      {
        assert TaskOf(threads, q.tasks[t]);
        var i := q.tasks[t].inputs[0];
        assert Assigned(q.tasks, i, t);
        DisjointTasks(threads, q.tasks, i, t);
        assert AnswersThread(p, q, threads, items, i);
      }
    }
  }
}
