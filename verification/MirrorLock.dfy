/** The two-level mirror lock of internal/acquire/acquire.go: an advisory file lock, exclusive
    between processes and between descriptors, taken before the in-process keyed lock and
    released after it. */
module MirrorLock {
  import Locks = KeyedLocks

  type Key = Locks.Key
  type Tid = Locks.Tid

  datatype Holder = OtherProcess | Thread(t: Tid)

  /** Between `TryLockContext` and `fl.Close`: before, inside or after the keyed lock. */
  datatype Phase = Entering | Inside | Closing

  datatype Call = Call(name: Key, phase: Phase)

  datatype State = State(files: map<Key, Holder>, calls: map<Tid, Call>, locks: Locks.State)

  const EMPTY := State(map[], map[], Locks.EMPTY)

  /** A cancelled or failed attempt on the file lock changes nothing and is left out. */
  datatype Step =
    | LockFile(t: Tid, name: Key)
    | Keyed(step: Locks.Step)
    | CloseFile(t: Tid)
    | ForeignLock(name: Key)
    | ForeignUnlock(name: Key)

  predicate Enabled(s: State, step: Step) {
    match step
    case LockFile(t, name) => t !in s.calls && name !in s.files
    case Keyed(k) =>
      && k.t in s.calls
      && Locks.Enabled(s.locks, k)
      && (if k.Register? then s.calls[k.t] == Call(k.key, Entering) else s.calls[k.t].phase.Inside?)
    case CloseFile(t) => t in s.calls && s.calls[t].phase.Closing?
    case ForeignLock(name) => name !in s.files
    case ForeignUnlock(name) => name in s.files && s.files[name].OtherProcess?
  }

  function Next(s: State, step: Step): State
    requires Enabled(s, step)
  {
    match step
    case LockFile(t, name) =>
      s.(files := s.files[name := Thread(t)], calls := s.calls[t := Call(name, Entering)])
    case Keyed(k) =>
      var phase := if k.Register? then Inside else if k.Deregister? then Closing else s.calls[k.t].phase;
      s.(locks := Locks.Next(s.locks, k), calls := s.calls[k.t := s.calls[k.t].(phase := phase)])
    case CloseFile(t) => s.(files := s.files - {s.calls[t].name}, calls := s.calls - {t})
    case ForeignLock(name) => s.(files := s.files[name := OtherProcess])
    case ForeignUnlock(name) => s.(files := s.files - {name})
  }

  ghost predicate IsRun(states: seq<State>, steps: seq<Step>) {
    && |states| == |steps| + 1
    && states[0] == EMPTY
    && forall i :: 0 <= i < |steps| ==> Enabled(states[i], steps[i]) && states[i + 1] == Next(states[i], steps[i])
  }

  /** A call holds the file of its name throughout, and uses the keyed lock of that name
      exactly in its middle phase. */
  ghost predicate CallOk(s: State, t: Tid)
    requires t in s.calls
  {
    var c := s.calls[t];
    && c.name in s.files && s.files[c.name] == Thread(t)
    && (t in s.locks.uses <==> c.phase.Inside?)
    && (t in s.locks.uses ==> s.locks.uses[t].key == c.name)
  }

  ghost predicate Inv(s: State) {
    && Locks.Inv(s.locks)
    && s.locks.uses.Keys <= s.calls.Keys
    && forall t :: t in s.calls ==> CallOk(s, t)
  }

  /** Every step of the mirror lock is a step of the keyed locks or leaves them alone. */
  lemma StepKeepsInv(s: State, step: Step)
    requires Inv(s) && Enabled(s, step)
    ensures Inv(Next(s, step))
  {
    var s' := Next(s, step);
    if step.Keyed? {
      Locks.StepKeepsInv(s.locks, step.step);
    }
    forall t | t in s'.calls
      ensures CallOk(s', t)
    {
      if t in s.calls {
        assert CallOk(s, t);
      }
      if step.CloseFile? {
        assert CallOk(s, step.t);
      }
    }
  }

  lemma {:induction false} RunKeepsInv(states: seq<State>, steps: seq<Step>, i: nat)
    requires IsRun(states, steps) && i < |states|
    ensures Inv(states[i])
  {
    if i > 0 {
      RunKeepsInv(states, steps, i - 1);
      StepKeepsInv(states[i - 1], steps[i - 1]);
    }
  }

  /** While a thread is anywhere in the keyed lock of a name, no other thread is, and no other
      process holds the file: the entry is never shared and never waited for. */
  lemma InnerLockNeverContended(states: seq<State>, steps: seq<Step>, i: nat, t: Tid)
    requires IsRun(states, steps) && i < |states| && t in states[i].locks.uses
    ensures var s := states[i];
            var u := s.locks.uses[t];
            && u.key in s.files && s.files[u.key] == Thread(t)
            && Locks.UsersOf(s.locks.uses, u.key) == {t}
            && u.entry in s.locks.heap && s.locks.heap[u.entry].refs == 1
            && (u.place.Waiting? ==> Enabled(s, Keyed(Locks.Acquire(t))))
  {
    RunKeepsInv(states, steps, i);
    var s := states[i];
    var u := s.locks.uses[t];
    assert CallOk(s, t) && Locks.ThreadOk(s.locks, t) && Locks.KeyOk(s.locks, u.key);
    forall x
      ensures x in Locks.UsersOf(s.locks.uses, u.key) <==> x == t
    {
      if x in s.locks.uses {
        assert CallOk(s, x);
      }
    }
  }
}
