/** The lock table of internal/acquire/acquire.go: a mutex per key, created on first use and
    deleted with its last user. Threads interleave at the four atomic steps of
    `keyedLocks.lock` and its unlock closure. */
module KeyedLocks {
  import opened Options

  type Key = string
  type Tid = nat
  type EntryId = nat

  /** One `*keyedLock`: its reference count and the thread holding its mutex. */
  datatype Entry = Entry(refs: int, owner: Option<Tid>)

  /** Where a thread stands in `lock` or in the closure that `lock` returned. */
  datatype Place =
    | Waiting                             // counted in refs, inside entry.mu.Lock
    | Holding                             // lock has returned
    | Unlocking                           // entry.mu released, not yet discounted

  datatype Use = Use(key: Key, entry: EntryId, place: Place)

  /** `table` is `l.entries`; `heap` is every entry ever allocated; a thread outside `lock`
      has no use. */
  datatype State = State(table: map<Key, EntryId>, heap: map<EntryId, Entry>, uses: map<Tid, Use>)

  const EMPTY := State(map[], map[], map[])

  datatype Step =
    | Register(t: Tid, key: Key, id: EntryId)
    | Acquire(t: Tid)
    | Unlock(t: Tid)
    | Deregister(t: Tid)

  predicate Enabled(s: State, step: Step) {
    match step
    case Register(t, key, id) => t !in s.uses && id !in s.heap && (key in s.table ==> s.table[key] in s.heap)
    case Acquire(t) =>
      t in s.uses && s.uses[t].place.Waiting? && s.uses[t].entry in s.heap && s.heap[s.uses[t].entry].owner.None?
    case Unlock(t) => t in s.uses && s.uses[t].place.Holding? && s.uses[t].entry in s.heap
    case Deregister(t) => t in s.uses && s.uses[t].place.Unlocking? && s.uses[t].entry in s.heap
  }

  /** The first critical section of `lock`: find or allocate the entry and count the caller. */
  function Registered(s: State, t: Tid, key: Key, id: EntryId): State
    requires Enabled(s, Register(t, key, id))
  {
    var e := if key in s.table then s.table[key] else id;
    var entry := if key in s.table then s.heap[e] else Entry(0, None);
    State(s.table[key := e], s.heap[e := entry.(refs := entry.refs + 1)], s.uses[t := Use(key, e, Waiting)])
  }

  /** The last critical section of the closure: discount the caller and delete an unused entry. */
  function Deregistered(s: State, t: Tid): State
    requires Enabled(s, Deregister(t))
  {
    var u := s.uses[t];
    var refs := s.heap[u.entry].refs - 1;
    State(if refs == 0 then s.table - {u.key} else s.table, s.heap[u.entry := s.heap[u.entry].(refs := refs)],
          s.uses - {t})
  }

  function Next(s: State, step: Step): State
    requires Enabled(s, step)
  {
    match step
    case Register(t, key, id) => Registered(s, t, key, id)
    case Acquire(t) =>
      var u := s.uses[t];
      s.(heap := s.heap[u.entry := s.heap[u.entry].(owner := Some(t))], uses := s.uses[t := u.(place := Holding)])
    case Unlock(t) =>
      var u := s.uses[t];
      s.(heap := s.heap[u.entry := s.heap[u.entry].(owner := None)], uses := s.uses[t := u.(place := Unlocking)])
    case Deregister(t) => Deregistered(s, t)
  }

  ghost predicate IsRun(states: seq<State>, steps: seq<Step>) {
    && |states| == |steps| + 1
    && states[0] == EMPTY
    && forall i :: 0 <= i < |steps| ==> Enabled(states[i], steps[i]) && states[i + 1] == Next(states[i], steps[i])
  }

  ghost function UsersOf(uses: map<Tid, Use>, key: Key): set<Tid> {
    set t | t in uses && uses[t].key == key
  }

  /** A thread between registration and release uses the entry the table holds for its key,
      and holds that entry's mutex while it is inside. */
  ghost predicate ThreadOk(s: State, t: Tid)
    requires t in s.uses
  {
    var u := s.uses[t];
    && u.key in s.table && s.table[u.key] == u.entry && u.entry in s.heap
    && (u.place.Holding? ==> s.heap[u.entry].owner == Some(t))
  }

  /** A table entry counts its users, of which there is at least one, and its mutex is held
      only by one of them. */
  ghost predicate KeyOk(s: State, k: Key)
    requires k in s.table
  {
    && s.table[k] in s.heap
    && s.heap[s.table[k]].refs == |UsersOf(s.uses, k)| > 0
    && match s.heap[s.table[k]].owner
       case None => true
       case Some(t) => t in s.uses && s.uses[t] == Use(k, s.table[k], Holding)
  }

  ghost predicate Inv(s: State) {
    && (forall t :: t in s.uses ==> ThreadOk(s, t))
    && (forall k :: k in s.table ==> KeyOk(s, k))
    && (forall k1, k2 :: k1 in s.table && k2 in s.table && s.table[k1] == s.table[k2] ==> k1 == k2)
  }

  /** Only the moving thread's own key gains or loses a user. */
  lemma UsersChange(uses: map<Tid, Use>, t: Tid, u: Use, k: Key)
    ensures UsersOf(uses[t := u], k) == if k == u.key then UsersOf(uses, k) + {t} else UsersOf(uses, k) - {t}
    ensures UsersOf(uses - {t}, k) == UsersOf(uses, k) - {t}
    ensures t in UsersOf(uses, k) <==> t in uses && uses[t].key == k
  {
  }

  lemma RegisterKeepsKeys(s: State, t: Tid, key: Key, id: EntryId)
    requires Inv(s) && Enabled(s, Register(t, key, id))
    ensures var s' := Registered(s, t, key, id); forall k :: k in s'.table ==> KeyOk(s', k)
  {
    var s' := Registered(s, t, key, id);
    forall k | k in s'.table
      ensures KeyOk(s', k)
    {
      UsersChange(s.uses, t, s'.uses[t], k);
      if k in s.table {
        assert KeyOk(s, k);
      } else {
        NoUsers(s, k);
      }
    }
  }

  lemma RegisterKeepsInv(s: State, t: Tid, key: Key, id: EntryId)
    requires Inv(s) && Enabled(s, Register(t, key, id))
    ensures Inv(Registered(s, t, key, id))
  {
    var s' := Registered(s, t, key, id);
    RegisterKeepsKeys(s, t, key, id);
    forall x | x in s'.uses
      ensures ThreadOk(s', x)
    {
      assert x != t ==> ThreadOk(s, x);
    }
    forall k | k in s.table
      ensures s.table[k] != id
    {
      assert KeyOk(s, k);
    }
  }

  lemma NoUsers(s: State, k: Key)
    requires Inv(s) && k !in s.table
    ensures UsersOf(s.uses, k) == {}
  {
    forall t | t in s.uses
      ensures s.uses[t].key != k
    {
      assert ThreadOk(s, t);
    }
  }

  /** Moving a thread within its key changes no census. */
  lemma SameUsers(s: State, t: Tid, place: Place, k: Key)
    requires t in s.uses
    ensures UsersOf(s.uses[t := s.uses[t].(place := place)], k) == UsersOf(s.uses, k)
  {
  }

  lemma AcquireKeepsInv(s: State, t: Tid)
    requires Inv(s) && Enabled(s, Acquire(t))
    ensures Inv(Next(s, Acquire(t)))
  {
    var s' := Next(s, Acquire(t));
    assert ThreadOk(s, t) && KeyOk(s, s.uses[t].key);
    forall k | k in s'.table
      ensures KeyOk(s', k)
    {
      assert KeyOk(s, k);
      SameUsers(s, t, Holding, k);
    }
    forall x | x in s'.uses
      ensures ThreadOk(s', x)
    {
      assert ThreadOk(s, x);
    }
  }

  lemma UnlockKeepsInv(s: State, t: Tid)
    requires Inv(s) && Enabled(s, Unlock(t))
    ensures Inv(Next(s, Unlock(t)))
  {
    var s' := Next(s, Unlock(t));
    assert ThreadOk(s, t) && KeyOk(s, s.uses[t].key);
    forall k | k in s'.table
      ensures KeyOk(s', k)
    {
      assert KeyOk(s, k);
      SameUsers(s, t, Unlocking, k);
    }
    forall x | x in s'.uses
      ensures ThreadOk(s', x)
    {
      assert ThreadOk(s, x);
    }
  }

  lemma DeregisterKeepsInv(s: State, t: Tid)
    requires Inv(s) && Enabled(s, Deregister(t))
    ensures Inv(Deregistered(s, t))
  {
    var s' := Deregistered(s, t);
    var u := s.uses[t];
    assert ThreadOk(s, t) && KeyOk(s, u.key);
    UsersChange(s.uses, t, u, u.key);
    forall k | k in s'.table
      ensures KeyOk(s', k)
    {
      assert KeyOk(s, k);
      UsersChange(s.uses, t, u, k);
    }
    forall x | x in s'.uses
      ensures ThreadOk(s', x)
    {
      assert ThreadOk(s, x);
      if s.uses[x].key == u.key {
        assert x in UsersOf(s.uses, u.key) - {t};
      }
    }
  }

  lemma StepKeepsInv(s: State, step: Step)
    requires Inv(s) && Enabled(s, step)
    ensures Inv(Next(s, step))
  {
    match step
    case Register(t, key, id) => RegisterKeepsInv(s, t, key, id);
    case Acquire(t) => AcquireKeepsInv(s, t);
    case Unlock(t) => UnlockKeepsInv(s, t);
    case Deregister(t) => DeregisterKeepsInv(s, t);
  }

  lemma {:induction false} RunKeepsInv(states: seq<State>, steps: seq<Step>, i: nat)
    requires IsRun(states, steps) && i < |states|
    ensures Inv(states[i])
  {
    if i > 0 {
      RunKeepsInv(states, steps, i - 1);
      StepKeepsInv(states[i - 1], steps[i - 1]);
    }
  }

  /** In every state of every run: one thread per key at most is between the return of `lock`
      and its unlock, all users of a key share one entry counted exactly, and the table holds
      exactly the keys in use, so it is empty when nobody is active. */
  lemma MutualExclusion(states: seq<State>, steps: seq<Step>, i: nat)
    requires IsRun(states, steps) && i < |states|
    ensures forall t1, t2 :: t1 in states[i].uses && t2 in states[i].uses && states[i].uses[t1].key == states[i].uses[t2].key ==>
              && states[i].uses[t1].entry == states[i].uses[t2].entry
              && (states[i].uses[t1].place.Holding? && states[i].uses[t2].place.Holding? ==> t1 == t2)
    ensures forall t :: t in states[i].uses ==>
              var u := states[i].uses[t];
              u.entry in states[i].heap && states[i].heap[u.entry].refs == |UsersOf(states[i].uses, u.key)|
    ensures forall k :: k in states[i].table <==> exists t :: t in states[i].uses && states[i].uses[t].key == k
  {
    RunKeepsInv(states, steps, i);
    var s := states[i];
    forall k
      ensures k in s.table <==> exists t :: t in s.uses && s.uses[t].key == k
    {
      if k in s.table {
        assert UsersOf(s.uses, k) != {};
        var t :| t in UsersOf(s.uses, k);
        assert t in s.uses && s.uses[t].key == k;
      }
    }
  }

  /** A release removes an entry only when it removes the very entry it held, and only when no
      other thread uses it; every other key keeps its entry. */
  lemma ReleaseDeletesOwnEntry(states: seq<State>, steps: seq<Step>, i: nat)
    requires IsRun(states, steps) && i < |steps| && steps[i].Deregister?
    ensures var s, s', t := states[i], states[i + 1], steps[i].t;
            var u := s.uses[t];
            && u.key in s.table && s.table[u.key] == u.entry
            && (u.key !in s'.table <==> UsersOf(s.uses, u.key) == {t})
            && forall k :: k != u.key ==> (k in s'.table <==> k in s.table) && (k in s.table ==> s'.table[k] == s.table[k])
  {
    RunKeepsInv(states, steps, i);
    var s, t := states[i], steps[i].t;
    assert t in UsersOf(s.uses, s.uses[t].key);
    assert |UsersOf(s.uses, s.uses[t].key) - {t}| == |UsersOf(s.uses, s.uses[t].key)| - 1;
  }

  /** The lock never blocks for good: whoever waits for a key's mutex either can take it or
      waits for a thread that is inside and can unlock. */
  lemma WaiterHasProgress(states: seq<State>, steps: seq<Step>, i: nat, t: Tid) returns (step: Step)
    requires IsRun(states, steps) && i < |states| && t in states[i].uses
    ensures Enabled(states[i], step) && !step.Register?
    ensures step.t in states[i].uses && states[i].uses[step.t].key == states[i].uses[t].key
  {
    RunKeepsInv(states, steps, i);
    var s := states[i];
    var u := s.uses[t];
    step := match u.place
            case Unlocking => Deregister(t)
            case Holding => Unlock(t)
            case Waiting => if s.heap[u.entry].owner.None? then Acquire(t) else Unlock(s.heap[u.entry].owner.value);
  }

  // ---------------------------------------------------------------------------
  // The critical sections on real objects
  // ---------------------------------------------------------------------------

  /** The reference counts by key, which is all that `l.mu` protects. */
  function Counts(s: State): map<Key, int> {
    map k | k in s.table :: if s.table[k] in s.heap then s.heap[s.table[k]].refs else 0
  }

  function CountUp(counts: map<Key, int>, key: Key): map<Key, int> {
    counts[key := (if key in counts then counts[key] else 0) + 1]
  }

  function CountDown(counts: map<Key, int>, key: Key): map<Key, int>
    requires key in counts
  {
    if counts[key] == 1 then counts - {key} else counts[key := counts[key] - 1]
  }

  /** The two table steps of the transition system count their thread's key up and down. */
  lemma RegisterCountsUp(s: State, t: Tid, key: Key, id: EntryId)
    requires Inv(s) && Enabled(s, Register(t, key, id))
    ensures Counts(Registered(s, t, key, id)) == CountUp(Counts(s), key)
  {
    forall k | k in s.table
      ensures s.table[k] in s.heap && s.table[k] != id
    {
      assert KeyOk(s, k);
    }
  }

  lemma DeregisterCountsDown(s: State, t: Tid)
    requires Inv(s) && Enabled(s, Deregister(t))
    ensures s.uses[t].key in Counts(s) && Counts(Deregistered(s, t)) == CountDown(Counts(s), s.uses[t].key)
  {
    assert ThreadOk(s, t);
  }

  class KeyedLock {
    var refs: int

    constructor ()
      ensures refs == 0
    {
      refs := 0;
    }
  }

  class LockTable {
    var entries: map<Key, KeyedLock>

    constructor ()
      ensures Valid() && View() == map[]
    {
      entries := map[];
    }

    ghost predicate Valid()
      reads this
    {
      forall k1, k2 :: k1 in entries && k2 in entries && entries[k1] == entries[k2] ==> k1 == k2
    }

    ghost function View(): map<Key, int>
      reads this, entries.Values
    {
      map k | k in entries :: entries[k].refs
    }

    /** `lock` under `l.mu`: the caller shares the key's live entry or creates it. */
    method Register(key: Key) returns (entry: KeyedLock)
      requires Valid()
      modifies this, entries.Values
      ensures Valid() && View() == CountUp(old(View()), key)
      ensures entries == old(entries)[key := entry]
      ensures if key in old(entries) then entry == old(entries[key]) else fresh(entry)
    {
      if key in entries {
        entry := entries[key];
      } else {
        entry := new KeyedLock();
        entries := entries[key := entry];
      }
      entry.refs := entry.refs + 1;
    }

    /** The closure under `l.mu`: the last user takes the entry away. */
    method Deregister(key: Key, entry: KeyedLock)
      requires Valid() && key in entries && entries[key] == entry
      modifies this, entry
      ensures Valid() && View() == CountDown(old(View()), key)
      ensures entries == if old(entry.refs) == 1 then old(entries) - {key} else old(entries)
    {
      entry.refs := entry.refs - 1;
      if entry.refs == 0 {
        entries := entries - {key};
      }
    }
  }
}
