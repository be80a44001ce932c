/** The bounded worker pool shared by the batch operations of internal/app
    (mcp_scalable_operations.go, mcp_pr_health.go): a feeder sends input indices over an
    unbuffered channel, workers write into their own slot of a shared result slice, and the
    function returns after closing the channel and waiting for the workers. */
module WorkerPool {
  import opened Options

  /** `runnable` lists the indices to process; `initial` is the result slice before the pool
      starts, with the slots of non-runnable inputs already filled; `outcome` is what the one
      call for an index produces. */
  datatype Batch<!R> = Batch(runnable: seq<nat>, initial: seq<Option<R>>, outcome: nat -> R) {
    predicate Valid() {
      && (forall k :: 0 <= k < |runnable| ==> runnable[k] < |initial|)
      && (forall j, k :: 0 <= j < k < |runnable| ==> runnable[j] != runnable[k])
    }
  }

  datatype Worker = Receiving | Working(index: nat) | Exited

  /** `next` indices have been handed out; `log` records completions in order. */
  datatype State<R> = State(
    next: nat,
    closed: bool,
    cancelled: bool,
    workers: seq<Worker>,
    results: seq<Option<R>>,
    log: seq<nat>,
    returned: bool)

  datatype Step =
    | Send(w: nat)                        // the feeder's send meets worker w's receive
    | CancelFeeder                        // ctx.Done wins the select; the channel is closed
    | CloseChannel                        // every index was sent
    | Finish(w: nat)                      // worker w stores its result and receives again
    | Exit(w: nat)                        // worker w sees the closed channel
    | Return                              // wg.Wait is over

  function Start<R>(b: Batch<R>, workers: nat): State<R> {
    State(0, false, false, seq(workers, _ => Receiving), b.initial, [], false)
  }

  /** The pool size used for `tasks` inputs and a given bound. */
  function PoolSize(bound: nat, tasks: nat): (n: nat)
    ensures n <= bound && n <= tasks && (n == bound || n == tasks)
  {
    if tasks < bound then tasks else bound
  }

  predicate AllExited(workers: seq<Worker>) {
    forall w :: 0 <= w < |workers| ==> workers[w].Exited?
  }

  predicate Enabled<R>(b: Batch<R>, s: State<R>, step: Step) {
    match step
    case Send(w) => !s.closed && s.next < |b.runnable| && w < |s.workers| && s.workers[w].Receiving?
    case CancelFeeder => !s.closed && s.next < |b.runnable|
    case CloseChannel => !s.closed && s.next == |b.runnable|
    case Finish(w) => w < |s.workers| && s.workers[w].Working? && s.workers[w].index < |s.results|
    case Exit(w) => s.closed && w < |s.workers| && s.workers[w].Receiving?
    case Return => s.closed && AllExited(s.workers) && !s.returned
  }

  function Next<R>(b: Batch<R>, s: State<R>, step: Step): State<R>
    requires Enabled(b, s, step)
  {
    match step
    case Send(w) => s.(workers := s.workers[w := Working(b.runnable[s.next])], next := s.next + 1)
    case CancelFeeder => s.(closed := true, cancelled := true)
    case CloseChannel => s.(closed := true)
    case Finish(w) =>
      var i := s.workers[w].index;
      s.(results := s.results[i := Some(b.outcome(i))], log := s.log + [i], workers := s.workers[w := Receiving])
    case Exit(w) => s.(workers := s.workers[w := Exited])
    case Return => s.(returned := true)
  }

  ghost predicate IsRun<R(!new)>(b: Batch<R>, workers: nat, states: seq<State<R>>, steps: seq<Step>) {
    && |states| == |steps| + 1
    && states[0] == Start(b, workers)
    && forall i :: 0 <= i < |steps| ==> Enabled(b, states[i], steps[i]) && states[i + 1] == Next(b, states[i], steps[i])
  }

  /** The sequential meaning: process the indices one after the other. */
  function MapSequentially<R>(b: Batch<R>, n: nat): seq<Option<R>>
    requires b.Valid() && n <= |b.runnable|
    ensures |MapSequentially(b, n)| == |b.initial|
  {
    if n == 0 then b.initial
    else MapSequentially(b, n - 1)[b.runnable[n - 1] := Some(b.outcome(b.runnable[n - 1]))]
  }

  lemma {:induction false} MapAt<R>(b: Batch<R>, n: nat, i: nat)
    requires b.Valid() && n <= |b.runnable| && i < |b.initial|
    ensures MapSequentially(b, n)[i] == if i in b.runnable[..n] then Some(b.outcome(i)) else b.initial[i]
  {
    if n > 0 {
      MapAt(b, n - 1, i);
      assert b.runnable[..n] == b.runnable[..n - 1] + [b.runnable[n - 1]];
    }
  }

  ghost predicate InWork(workers: seq<Worker>, i: nat) {
    exists w :: 0 <= w < |workers| && workers[w] == Working(i)
  }

  /** Handed-out indices split into those in work and those completed, none twice; a slot holds
      its outcome once completed and is untouched before. */
  ghost predicate Inv<R>(b: Batch<R>, s: State<R>) {
    && b.Valid() && s.next <= |b.runnable| && |s.results| == |b.initial|
    && (s.closed && !s.cancelled ==> s.next == |b.runnable|)
    && (s.returned ==> s.closed && AllExited(s.workers))
    && (forall i :: i in b.runnable[..s.next] <==> i in s.log || InWork(s.workers, i))
    && (forall v, w :: 0 <= v < w < |s.workers| && s.workers[v].Working? ==> s.workers[v] != s.workers[w])
    && (forall i :: InWork(s.workers, i) ==> i !in s.log)
    && (forall j, k :: 0 <= j < k < |s.log| ==> s.log[j] != s.log[k])
    && (forall i :: 0 <= i < |s.results| ==>
          s.results[i] == if i in s.log then Some(b.outcome(i)) else b.initial[i])
  }

  lemma SendKeepsInv<R>(b: Batch<R>, s: State<R>, w: nat)
    requires Inv(b, s) && Enabled(b, s, Send(w))
    ensures Inv(b, Next(b, s, Send(w)))
  {
    var s' := Next(b, s, Send(w));
    var i := b.runnable[s.next];
    assert b.runnable[..s'.next] == b.runnable[..s.next] + [i];
    assert i !in b.runnable[..s.next];
    assert s'.workers[w] == Working(i);
    forall x
      ensures InWork(s'.workers, x) <==> InWork(s.workers, x) || x == i
    {
      if InWork(s.workers, x) {
        var v :| 0 <= v < |s.workers| && s.workers[v] == Working(x);
        assert s'.workers[v] == Working(x);
      }
    }
    assert !InWork(s.workers, i);
  }

  lemma FinishKeepsInv<R>(b: Batch<R>, s: State<R>, w: nat)
    requires Inv(b, s) && Enabled(b, s, Finish(w))
    ensures Inv(b, Next(b, s, Finish(w)))
  {
    var s' := Next(b, s, Finish(w));
    var i := s.workers[w].index;
    assert InWork(s.workers, i);
    forall x
      ensures InWork(s'.workers, x) <==> InWork(s.workers, x) && x != i
    {
      if InWork(s.workers, x) && x != i {
        var v :| 0 <= v < |s.workers| && s.workers[v] == Working(x);
        assert s'.workers[v] == Working(x);
      }
    }
  }

  lemma ExitKeepsInv<R>(b: Batch<R>, s: State<R>, w: nat)
    requires Inv(b, s) && Enabled(b, s, Exit(w))
    ensures Inv(b, Next(b, s, Exit(w)))
  {
    var s' := Next(b, s, Exit(w));
    forall x
      ensures InWork(s'.workers, x) <==> InWork(s.workers, x)
    {
      if InWork(s.workers, x) {
        var v :| 0 <= v < |s.workers| && s.workers[v] == Working(x);
        assert s'.workers[v] == Working(x);
      }
    }
  }

  lemma {:induction false} RunKeepsInv<R(!new)>(b: Batch<R>, workers: nat, states: seq<State<R>>, steps: seq<Step>, i: nat)
    requires b.Valid() && IsRun(b, workers, states, steps) && i < |states|
    ensures Inv(b, states[i])
  {
    if i > 0 {
      RunKeepsInv(b, workers, states, steps, i - 1);
      var s, step := states[i - 1], steps[i - 1];
      match step {
        case Send(w) => SendKeepsInv(b, s, w);
        case Finish(w) => FinishKeepsInv(b, s, w);
        case Exit(w) => ExitKeepsInv(b, s, w);
        case _ =>
      }
    }
  }

  /** When the pool returns without cancellation, whatever the schedule, the result slice is the
      sequential map and every runnable index was processed exactly once. After a cancellation
      it is the sequential map of the indices handed out so far. Either way every worker has
      exited and nothing can happen any more. */
  lemma PoolRefinesSequentialMap<R(!new)>(b: Batch<R>, workers: nat, states: seq<State<R>>, steps: seq<Step>, i: nat)
    requires b.Valid() && IsRun(b, workers, states, steps) && i < |states| && states[i].returned
    ensures states[i].next <= |b.runnable| && states[i].results == MapSequentially(b, states[i].next)
    ensures !states[i].cancelled ==> states[i].next == |b.runnable|
    ensures multiset(states[i].log) == multiset(b.runnable[..states[i].next])
    ensures forall step :: !Enabled(b, states[i], step)
  {
    RunKeepsInv(b, workers, states, steps, i);
    var s := states[i];
    forall k | 0 <= k < |s.results|
      ensures s.results[k] == MapSequentially(b, s.next)[k]
    {
      MapAt(b, s.next, k);
    }
    SameElements(s.log, b.runnable[..s.next]);
  }

  /** Sequences without repetition that hold the same elements are permutations. */
  lemma {:induction false} SameElements(a: seq<nat>, b: seq<nat>)
    requires forall j, k :: 0 <= j < k < |a| ==> a[j] != a[k]
    requires forall j, k :: 0 <= j < k < |b| ==> b[j] != b[k]
    requires forall x :: x in a <==> x in b
    ensures multiset(a) == multiset(b)
  {
    forall x
      ensures multiset(a)[x] == multiset(b)[x]
    {
      CountOnce(a, x);
      CountOnce(b, x);
    }
  }

  lemma {:induction false} CountOnce(a: seq<nat>, x: nat)
    requires forall j, k :: 0 <= j < k < |a| ==> a[j] != a[k]
    ensures multiset(a)[x] == if x in a then 1 else 0
  {
    if a != [] {
      assert a == a[..|a| - 1] + [a[|a| - 1]];
      CountOnce(a[..|a| - 1], x);
    }
  }

  /** The pool never deadlocks: with a worker for a non-empty batch, some step is always
      possible until it has returned. */
  lemma PoolMakesProgress<R(!new)>(b: Batch<R>, bound: nat, tasks: nat, states: seq<State<R>>, steps: seq<Step>, i: nat)
    returns (step: Step)
    requires b.Valid() && IsRun(b, PoolSize(bound, tasks), states, steps) && i < |states| && !states[i].returned
    requires 0 < bound && |b.runnable| <= tasks
    ensures Enabled(b, states[i], step)
  {
    RunKeepsInv(b, PoolSize(bound, tasks), states, steps, i);
    WorkersStay(b, PoolSize(bound, tasks), states, steps, i);
    var s := states[i];
    if !s.closed && s.next == |b.runnable| {
      return CloseChannel;
    }
    if AllExited(s.workers) && s.closed {
      return Return;
    }
    if !s.closed {
      step := SendOrFinish(b, s);
      return;
    }
    var w :| 0 <= w < |s.workers| && !s.workers[w].Exited?;
    if s.workers[w].Working? {
      assert InWork(s.workers, s.workers[w].index);
      return Finish(w);
    }
    return Exit(w);
  }

  /** While indices remain, a worker is either working or ready for the next one. */
  lemma SendOrFinish<R>(b: Batch<R>, s: State<R>) returns (step: Step)
    requires Inv(b, s) && !s.closed && s.next < |b.runnable| && 0 < |s.workers| && NoneExited(s.workers)
    ensures Enabled(b, s, step) && (step.Send? || step.Finish?)
  {
    if s.workers[0].Working? {
      assert InWork(s.workers, s.workers[0].index);
      return Finish(0);
    }
    return Send(0);
  }

  predicate NoneExited(workers: seq<Worker>) {
    forall w :: 0 <= w < |workers| ==> !workers[w].Exited?
  }

  lemma {:induction false} WorkersStay<R(!new)>(b: Batch<R>, workers: nat, states: seq<State<R>>, steps: seq<Step>, i: nat)
    requires IsRun(b, workers, states, steps) && i < |states|
    ensures |states[i].workers| == workers
    ensures !states[i].closed ==> NoneExited(states[i].workers)
  {
    if i > 0 {
      WorkersStay(b, workers, states, steps, i - 1);
    }
  }

  function Weight(workers: seq<Worker>): nat {
    if workers == [] then 0
    else
      Weight(workers[..|workers| - 1]) +
      match workers[|workers| - 1]
      case Exited => 0
      case Receiving => 1
      case Working(_) => 2
  }

  function Remaining<R>(b: Batch<R>, s: State<R>): int {
    2 * (|b.runnable| - s.next) + Weight(s.workers) + (if s.closed then 0 else 1) + (if s.returned then 0 else 1)
  }

  lemma {:induction false} WeightChange(workers: seq<Worker>, w: nat, v: Worker)
    requires w < |workers|
    ensures Weight(workers[w := v]) - Weight(workers) == Weight([v]) - Weight([workers[w]])
  {
    var n := |workers| - 1;
    assert Weight([v][..0]) == 0 && Weight([workers[w]][..0]) == 0;
    if w == n {
      assert workers[w := v][..n] == workers[..n];
    } else {
      WeightChange(workers[..n], w, v);
      assert workers[w := v][..n] == workers[..n][w := v];
    }
  }

  /** Every step brings the pool closer to its return, so every schedule is finite. */
  lemma EveryStepCounts<R(!new)>(b: Batch<R>, workers: nat, states: seq<State<R>>, steps: seq<Step>, i: nat)
    requires b.Valid() && IsRun(b, workers, states, steps) && i < |steps|
    ensures 0 <= Remaining(b, states[i + 1]) < Remaining(b, states[i])
  {
    RunKeepsInv(b, workers, states, steps, i);
    RunKeepsInv(b, workers, states, steps, i + 1);
    var s, step := states[i], steps[i];
    match step
    case Send(w) => WeightChange(s.workers, w, Working(b.runnable[s.next]));
    case Finish(w) => WeightChange(s.workers, w, Receiving);
    case Exit(w) => WeightChange(s.workers, w, Exited);
    case _ =>
  }
}
