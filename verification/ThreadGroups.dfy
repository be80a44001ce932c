/** How a thread batch groups its inputs and fans the group outcomes back out
    (syncThreadsBatch in internal/app/mcp_scalable_operations.go). */
module ThreadGroups {
  import opened Options

  datatype Target = Target(repo: string, kind: string, number: nat)

  /** `inputs` are the positions in the request of the threads named by `numbers`; a whole
      repository selection has neither. */
  datatype Task = Task(repo: string, kind: string, numbers: seq<nat>, inputs: seq<nat>, maxRequests: nat)

  type GroupKey = (string, string)

  function KeyOf(task: Task): GroupKey {
    (task.repo, task.kind)
  }

  // ---------------------------------------------------------------------------
  // Grouping
  // ---------------------------------------------------------------------------

  /** A task holds threads of its own repository and kind, in input order. */
  ghost predicate TaskOf(threads: seq<Target>, task: Task) {
    && 0 < |task.inputs| == |task.numbers|
    && (forall k :: 0 <= k < |task.inputs| ==>
          task.inputs[k] < |threads| && threads[task.inputs[k]] == Target(task.repo, task.kind, task.numbers[k]))
    && (forall j, k :: 0 <= j < k < |task.inputs| ==> task.inputs[j] < task.inputs[k])
  }

  ghost predicate Assigned(tasks: seq<Task>, i: int, t: int) {
    0 <= t < |tasks| && 0 <= i && i in tasks[t].inputs
  }

  ghost predicate Covered(tasks: seq<Task>, i: int) {
    exists t :: Assigned(tasks, i, t)
  }

  /** One task per repository and kind, and every input position in one of them. */
  ghost predicate Partitions(threads: seq<Target>, tasks: seq<Task>) {
    && (forall t :: 0 <= t < |tasks| ==> TaskOf(threads, tasks[t]))
    && (forall t, u :: 0 <= t < u < |tasks| ==> KeyOf(tasks[t]) != KeyOf(tasks[u]))
    && (forall i :: 0 <= i < |threads| ==> Covered(tasks, i))
  }

  /** `grouped` finds the task of every group key seen so far. */
  ghost predicate Indexes(grouped: map<GroupKey, nat>, tasks: seq<Task>) {
    && (forall t :: 0 <= t < |tasks| ==> KeyOf(tasks[t]) in grouped && grouped[KeyOf(tasks[t])] == t)
    && (forall k :: k in grouped ==> grouped[k] < |tasks| && KeyOf(tasks[grouped[k]]) == k)
  }

  function Added(task: Task, number: nat, input: nat): Task {
    task.(numbers := task.numbers + [number], inputs := task.inputs + [input])
  }

  method GroupThreads(threads: seq<Target>) returns (tasks: seq<Task>)
    ensures Partitions(threads, tasks) && |tasks| <= |threads|
    ensures forall t :: 0 <= t < |tasks| ==> tasks[t].maxRequests == 0
  {
    tasks := [];
    var grouped: map<GroupKey, nat> := map[];
    var input := 0;
    while input < |threads|
      invariant input <= |threads| && |tasks| <= input
      invariant Partitions(threads[..input], tasks) && Indexes(grouped, tasks)
      invariant forall t :: 0 <= t < |tasks| ==> tasks[t].maxRequests == 0
    {
      var thread := threads[input];
      var key := (thread.repo, thread.kind);
      assert threads[..input + 1] == threads[..input] + [thread];
      assert |threads[..input]| == input;
      if key !in grouped {
        NewGroup(threads[..input], thread, tasks);
        grouped := grouped[key := |tasks|];
        tasks := tasks + [Added(Task(thread.repo, thread.kind, [], [], 0), thread.number, input)];
      } else {
        var index := grouped[key];
        JoinGroup(threads[..input], thread, tasks, index);
        tasks := tasks[index := Added(tasks[index], thread.number, input)];
      }
      input := input + 1;
    }
    assert threads[..input] == threads;
  }

  lemma TaskExtends(head: seq<Target>, thread: Target, task: Task)
    requires TaskOf(head, task)
    ensures TaskOf(head + [thread], task)
    ensures KeyOf(task) == (thread.repo, thread.kind) ==> TaskOf(head + [thread], Added(task, thread.number, |head|))
  {
  }

  lemma CoverExtends(before: seq<Task>, after: seq<Task>, i: int)
    requires Covered(before, i) && |before| <= |after|
    requires forall t :: 0 <= t < |before| ==> forall x :: x in before[t].inputs ==> x in after[t].inputs
    ensures Covered(after, i)
  {
    var t :| Assigned(before, i, t);
    assert Assigned(after, i, t);
  }

  lemma NewGroup(head: seq<Target>, thread: Target, tasks: seq<Task>)
    requires Partitions(head, tasks) && forall t :: 0 <= t < |tasks| ==> KeyOf(tasks[t]) != (thread.repo, thread.kind)
    ensures Partitions(head + [thread], tasks + [Added(Task(thread.repo, thread.kind, [], [], 0), thread.number, |head|)])
  {
    var threads, after := head + [thread], tasks + [Added(Task(thread.repo, thread.kind, [], [], 0), thread.number, |head|)];
    forall t | 0 <= t < |after|
      ensures TaskOf(threads, after[t])
    {
      if t < |tasks| {
        TaskExtends(head, thread, tasks[t]);
      }
    }
    forall i | 0 <= i < |threads|
      ensures Covered(after, i)
    {
      if i < |head| {
        CoverExtends(tasks, after, i);
      } else {
        assert Assigned(after, i, |tasks|);
      }
    }
  }

  lemma JoinGroup(head: seq<Target>, thread: Target, tasks: seq<Task>, index: nat)
    requires Partitions(head, tasks) && index < |tasks| && KeyOf(tasks[index]) == (thread.repo, thread.kind)
    ensures Partitions(head + [thread], tasks[index := Added(tasks[index], thread.number, |head|)])
  {
    var threads, after := head + [thread], tasks[index := Added(tasks[index], thread.number, |head|)];
    forall t | 0 <= t < |after|
      ensures TaskOf(threads, after[t])
    {
      TaskExtends(head, thread, tasks[t]);
    }
    forall i | 0 <= i < |threads|
      ensures Covered(after, i)
    {
      if i < |head| {
        CoverExtends(tasks, after, i);
      } else {
        assert Assigned(after, i, index);
      }
    }
  }

  /** The partition is a function of the input: each position belongs to exactly one task, the
      one with its repository and kind, at exactly one place. */
  lemma AssignmentUnique(threads: seq<Target>, tasks: seq<Task>, i: nat) returns (t: nat, k: nat)
    requires Partitions(threads, tasks) && i < |threads|
    ensures t < |tasks| && k < |tasks[t].inputs| == |tasks[t].numbers| && tasks[t].inputs[k] == i
    ensures KeyOf(tasks[t]) == (threads[i].repo, threads[i].kind) && tasks[t].numbers[k] == threads[i].number
    ensures forall u, l :: 0 <= u < |tasks| && 0 <= l < |tasks[u].inputs| && tasks[u].inputs[l] == i ==> u == t && l == k
  {
    assert Covered(tasks, i);
    t :| Assigned(tasks, i, t);
    assert TaskOf(threads, tasks[t]);
    k :| 0 <= k < |tasks[t].inputs| && tasks[t].inputs[k] == i;
    forall u, l | 0 <= u < |tasks| && 0 <= l < |tasks[u].inputs| && tasks[u].inputs[l] == i
      ensures u == t && l == k
    {
      DisjointTasks(threads, tasks, i, t);
      assert Assigned(tasks, i, u) && TaskOf(threads, tasks[t]);
    }
  }

  lemma DisjointTasks(threads: seq<Target>, tasks: seq<Task>, i: nat, t: nat)
    requires Partitions(threads, tasks) && i < |threads| && Assigned(tasks, i, t)
    ensures forall u :: Assigned(tasks, i, u) ==> u == t
  {
    forall u | Assigned(tasks, i, u)
      ensures u == t
    {
      assert TaskOf(threads, tasks[u]) && TaskOf(threads, tasks[t]);
      assert KeyOf(tasks[u]) == KeyOf(tasks[t]);
    }
  }

  // ---------------------------------------------------------------------------
  // Fan-out
  // ---------------------------------------------------------------------------

  datatype Reason = NotIndexed | BudgetExceeded(required: nat, remaining: nat) | RequestFailed

  datatype ItemKey = TaskKey(repo: string, kind: string) | ThreadKey(thread: Target)

  datatype Item =
    | Success(key: ItemKey, requests: nat, capped: bool)
    | Failure(key: ItemKey, reason: Reason)
    | ExactSuccess(key: ItemKey, capped: bool)
    | ExactFailure(key: ItemKey, reason: Reason)
  {
    function RequestsUsed(): nat {
      if Success? then requests else 0
    }

    predicate Complete() {
      (Success? || ExactSuccess?) && !capped
    }

    predicate OfTask() {
      Success? || Failure?
    }
  }

  /** forExactThread: a task outcome as seen from one of its threads. */
  function ForExactThread(item: Item, thread: Target): Option<Item> {
    match item
    case Success(_, _, capped) => Some(ExactSuccess(ThreadKey(thread), capped))
    case Failure(_, reason) => Some(ExactFailure(ThreadKey(thread), reason))
    case _ => None
  }

  /** What a thread is told of its task's outcome: under its own key, success for success and
      failure for failure with the same reason, complete exactly when the task is, and without its
      requests; only an outcome that was already handed out has no such view. */
  lemma ThreadView(item: Item, thread: Target)
    ensures ForExactThread(item, thread).Some? <==> item.Success? || item.Failure?
    ensures ForExactThread(item, thread).Some? ==>
              var view := ForExactThread(item, thread).value;
              && view.key == ThreadKey(thread) && view.RequestsUsed() == 0
              && (view.Complete() <==> item.Success? && !item.capped) && (item.Complete() <==> item.Success? && !item.capped)
              && (item.Success? ==> view == ExactSuccess(ThreadKey(thread), item.capped))
              && (item.Failure? ==> view == ExactFailure(ThreadKey(thread), item.reason))
  {
  }

  ghost predicate Delivered(threads: seq<Target>, tasks: seq<Task>, outcomes: seq<Item>, results: seq<Item>, i: int, t: int)
    requires |results| == |threads| && |outcomes| == |tasks|
  {
    0 <= i < |threads| && Assigned(tasks, i, t) ==> Some(results[i]) == ForExactThread(outcomes[t], threads[i])
  }

  /** The regrouping loops; `failed` is their error return. Every input gets the outcome of the
      one task it was assigned to, under its own key. */
  method FanOut(threads: seq<Target>, tasks: seq<Task>, outcomes: seq<Item>) returns (failed: bool, results: seq<Item>)
    requires Partitions(threads, tasks) && |outcomes| == |tasks|
    ensures failed <==> exists t :: 0 <= t < |tasks| && !outcomes[t].OfTask()
    ensures !failed ==> |results| == |threads| && forall i, t :: Delivered(threads, tasks, outcomes, results, i, t)
  {
    if |threads| > 0 {
      assert Covered(tasks, 0);
      results := seq(|threads|, _ => outcomes[0]);
    } else {
      results := [];
    }
    for t := 0 to |tasks|
      invariant |results| == |threads| && forall u :: 0 <= u < t ==> outcomes[u].OfTask()
      invariant forall i, u :: u < t ==> Delivered(threads, tasks, outcomes, results, i, u)
    {
      assert TaskOf(threads, tasks[t]);
      for k := 0 to |tasks[t].inputs|
        invariant |results| == |threads| && (k > 0 ==> outcomes[t].OfTask())
        invariant forall i, u :: u < t ==> Delivered(threads, tasks, outcomes, results, i, u)
        invariant forall l :: 0 <= l < k ==>
                    Some(results[tasks[t].inputs[l]]) == ForExactThread(outcomes[t], threads[tasks[t].inputs[l]])
      {
        var input := tasks[t].inputs[k];
        var item := ForExactThread(outcomes[t], threads[input]);
        if item.None? {
          return true, results;
        }
        assert Assigned(tasks, input, t);
        DisjointTasks(threads, tasks, input, t);
        ghost var was := results;
        results := results[input := item.value];
        forall i, u | u < t
          ensures Delivered(threads, tasks, outcomes, results, i, u)
        {
          assert Delivered(threads, tasks, outcomes, was, i, u);
        }
      }
    }
    failed := false;
  }
}
