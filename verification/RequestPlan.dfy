/** How a thread batch funds its tasks from one request budget before the pool starts
    (syncThreadsBatch in internal/app/mcp_scalable_operations.go). */
module RequestPlan {
  import opened Options
  import opened ThreadGroups

  function MaxPages(limitPerRepository: nat): nat {
    if limitPerRepository > 100 then (limitPerRepository + 99) / 100 else 1
  }

  /** The page bound of a repository listing: the fewest pages of a hundred that hold the limit, and
      never none. */
  lemma MaxPagesFits(limitPerRepository: nat)
    ensures MaxPages(limitPerRepository) >= 1 && 100 * MaxPages(limitPerRepository) >= limitPerRepository
    ensures MaxPages(limitPerRepository) > 1 ==> 100 * (MaxPages(limitPerRepository) - 1) < limitPerRepository
  {
  }

  /** The tasks of a batch, whether the corpus stores each one's repository, the page bound of
      a repository listing and the budget. */
  datatype Request = Request(tasks: seq<Task>, stored: seq<bool>, pages: nat, budget: nat) {
    predicate Valid() {
      |tasks| == |stored| && forall t :: 0 <= t < |tasks| ==> tasks[t].maxRequests == 0
    }
  }

  /** How many requests a task gets out of what is left: an exact group all it needs or
      nothing, a repository as many pages as remain. */
  function Grant(task: Task, stored: bool, pages: nat, remaining: nat): (g: nat)
    ensures g <= remaining
  {
    if !stored then 0
    else if |task.numbers| > 0 then (if |task.numbers| > remaining then 0 else |task.numbers|)
    else if pages > remaining then remaining else pages
  }

  /** First come, first served. */
  function RemainingAfter(q: Request, n: nat): nat
    requires q.Valid() && n <= |q.tasks|
  {
    if n == 0 then q.budget
    else RemainingAfter(q, n - 1) - Grant(q.tasks[n - 1], q.stored[n - 1], q.pages, RemainingAfter(q, n - 1))
  }

  function GrantAt(q: Request, i: nat): nat
    requires q.Valid() && i < |q.tasks|
  {
    Grant(q.tasks[i], q.stored[i], q.pages, RemainingAfter(q, i))
  }

  function Refusal(q: Request, i: nat): Item
    requires q.Valid() && i < |q.tasks|
  {
    var task := q.tasks[i];
    var key := TaskKey(task.repo, task.kind);
    if !q.stored[i] then Failure(key, NotIndexed)
    else Failure(key, BudgetExceeded(if |task.numbers| > 0 then |task.numbers| else 1, RemainingAfter(q, i)))
  }

  function TotalGranted(q: Request, n: nat): nat
    requires q.Valid() && n <= |q.tasks|
  {
    if n == 0 then 0 else TotalGranted(q, n - 1) + GrantAt(q, n - 1)
  }

  datatype Plan = Plan(tasks: seq<Task>, runnable: seq<nat>, slots: seq<Option<Item>>, planned: nat, remaining: nat)

  /** A planned task is funded and runnable, or refused with the reason in its slot. */
  ghost predicate Settled(q: Request, plan: Plan, i: nat)
    requires q.Valid() && i < |q.tasks| == |plan.tasks| == |plan.slots|
  {
    && plan.tasks[i] == q.tasks[i].(maxRequests := GrantAt(q, i))
    && plan.slots[i] == (if GrantAt(q, i) == 0 then Some(Refusal(q, i)) else None)
    && (i in plan.runnable <==> GrantAt(q, i) > 0)
  }

  ghost predicate PlanOk(q: Request, plan: Plan, n: nat)
    requires q.Valid() && n <= |q.tasks|
  {
    && |plan.tasks| == |plan.slots| == |q.tasks|
    && plan.remaining == RemainingAfter(q, n) && plan.planned == TotalGranted(q, n)
    && plan.planned + plan.remaining == q.budget
    && (forall i :: 0 <= i < n ==> Settled(q, plan, i))
    && (forall i :: n <= i < |q.tasks| ==> plan.tasks[i] == q.tasks[i] && plan.slots[i].None?)
    && (forall k :: 0 <= k < |plan.runnable| ==> plan.runnable[k] < n)
    && (forall j, k :: 0 <= j < k < |plan.runnable| ==> plan.runnable[j] < plan.runnable[k])
  }

  method PlanRequests(q: Request) returns (plan: Plan)
    requires q.Valid()
    ensures PlanOk(q, plan, |q.tasks|)
  {
    plan := Plan(q.tasks, [], seq(|q.tasks|, _ => None), 0, q.budget);
    var index := 0;
    while index < |q.tasks|
      invariant index <= |q.tasks| && PlanOk(q, plan, index)
    {
      ghost var before := plan;
      var task := q.tasks[index];
      var threadRequests := q.pages;
      if |task.numbers| > 0 {
        threadRequests := |task.numbers|;
      } else if threadRequests > plan.remaining {
        threadRequests := plan.remaining;
      }
      if !q.stored[index] {
        plan := Refused(plan, index, Failure(TaskKey(task.repo, task.kind), NotIndexed));
      } else if threadRequests > plan.remaining {
        plan := Refused(plan, index, Failure(TaskKey(task.repo, task.kind), BudgetExceeded(threadRequests, plan.remaining)));
      } else if threadRequests < 1 {
        plan := Refused(plan, index, Failure(TaskKey(task.repo, task.kind), BudgetExceeded(1, plan.remaining)));
      } else {
        plan := Plan(plan.tasks[index := task.(maxRequests := threadRequests)], plan.runnable + [index], plan.slots,
                     plan.planned + threadRequests, plan.remaining - threadRequests);
      }
      PlanGrows(q, before, plan, index);
      index := index + 1;
    }
  }

  /** One more task is settled, and nothing else has changed. */
  lemma PlanGrows(q: Request, before: Plan, plan: Plan, index: nat)
    requires q.Valid() && index < |q.tasks| && PlanOk(q, before, index)
    requires var g := GrantAt(q, index);
             if g == 0 then plan == Refused(before, index, Refusal(q, index))
             else plan == Plan(before.tasks[index := q.tasks[index].(maxRequests := g)], before.runnable + [index],
                               before.slots, before.planned + g, before.remaining - g)
    ensures PlanOk(q, plan, index + 1)
  {
    forall i | 0 <= i < index
      ensures Settled(q, plan, i)
    {
      assert Settled(q, before, i);
    }
    assert Settled(q, plan, index);
  }

  function Refused(plan: Plan, index: nat, item: Item): Plan
    requires index < |plan.slots|
  {
    plan.(slots := plan.slots[index := Some(item)])
  }

  /** What a plan promises: the budget splits exactly into grants and remainder, every runnable
      task can make a request, an exact group is funded wholly or not at all, and a stored task
      goes unfunded only when the budget could not cover its least request. */
  lemma PlanIsSound(q: Request, plan: Plan, i: nat)
    requires q.Valid() && PlanOk(q, plan, |q.tasks|) && i < |q.tasks| && q.pages > 0
    ensures plan.planned + plan.remaining == q.budget && plan.planned == TotalGranted(q, |q.tasks|)
    ensures i in plan.runnable <==> plan.slots[i].None?
    ensures i in plan.runnable <==> plan.tasks[i].maxRequests >= 1
    ensures i in plan.runnable ==> q.stored[i]
    ensures |q.tasks[i].numbers| > 0 ==> plan.tasks[i].maxRequests in {0, |q.tasks[i].numbers|}
    ensures q.stored[i] && |q.tasks[i].numbers| == 0 ==>
              plan.tasks[i].maxRequests == if q.pages < RemainingAfter(q, i) then q.pages else RemainingAfter(q, i)
    ensures plan.tasks[i] == q.tasks[i].(maxRequests := plan.tasks[i].maxRequests)
    ensures RemainingAfter(q, i) == q.budget - GrantedUpTo(plan.tasks, i)
    ensures !q.stored[i] ==> plan.slots[i] == Some(Failure(TaskKey(q.tasks[i].repo, q.tasks[i].kind), NotIndexed))
    ensures q.stored[i] && i !in plan.runnable ==>
              var need := if |q.tasks[i].numbers| > 0 then |q.tasks[i].numbers| else 1;
              plan.slots[i] == Some(Failure(TaskKey(q.tasks[i].repo, q.tasks[i].kind), BudgetExceeded(need, RemainingAfter(q, i))))
    ensures q.stored[i] && i !in plan.runnable <==>
              q.stored[i] && RemainingAfter(q, i) < if |q.tasks[i].numbers| > 0 then |q.tasks[i].numbers| else 1
  {
    assert Settled(q, plan, i);
    GrantsAreInTasks(q, plan, i);
    RemainingIsRest(q, i);
  }

  lemma {:induction false} RemainingIsRest(q: Request, n: nat)
    requires q.Valid() && n <= |q.tasks|
    ensures RemainingAfter(q, n) + TotalGranted(q, n) == q.budget
  {
    if n > 0 {
      RemainingIsRest(q, n - 1);
    }
  }

  function GrantedUpTo(tasks: seq<Task>, n: nat): nat
    requires n <= |tasks|
  {
    if n == 0 then 0 else GrantedUpTo(tasks, n - 1) + tasks[n - 1].maxRequests
  }

  lemma {:induction false} GrantsAreInTasks(q: Request, plan: Plan, n: nat)
    requires q.Valid() && PlanOk(q, plan, |q.tasks|) && n <= |q.tasks|
    ensures GrantedUpTo(plan.tasks, n) == TotalGranted(q, n)
  {
    if n > 0 {
      GrantsAreInTasks(q, plan, n - 1);
      assert Settled(q, plan, n - 1);
    }
  }
}
