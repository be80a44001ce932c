/** Optimistic multi-read operations over the corpus: the begin/finish bracket of
    internal/app/mcp_revision.go over the revision counter of internal/corpus/revision.go.
    Other goroutines and processes may commit between any two steps. */
module CorpusRead {
  import opened Options

  /** One independently read piece of the corpus. Commits to source and derived tables raise
      the revision; commits to operational tables (jobs, runs) do not. */
  datatype Part = Part(name: string, operational: bool)

  type Content = map<Part, int>

  /** `dataVersion` is what a dedicated SQLite connection sees change on every commit. */
  datatype Db = Db(content: Content, revision: nat, dataVersion: nat) {
    function Read(part: Part): int {
      if part in content then content[part] else 0
    }

    function ReadAll(parts: seq<Part>): seq<int> {
      seq(|parts|, i requires 0 <= i < |parts| => Read(parts[i]))
    }
  }

  /** One transaction, writing any set of parts. */
  type Commit = Content

  predicate Revisioned(c: Commit) {
    exists p :: p in c && !p.operational
  }

  function Apply(db: Db, c: Commit): Db {
    Db(db.content + c, if Revisioned(c) then db.revision + 1 else db.revision, db.dataVersion + 1)
  }

  function Replay(db: Db, commits: seq<Commit>): Db {
    if commits == [] then db else Apply(Replay(db, commits[..|commits| - 1]), commits[|commits| - 1])
  }

  /** What two looks at the counters prove about everything committed in between: an unchanged
      revision means no commit touched a revisioned part, an unchanged data version means no
      commit at all; and neither counter ever falls. */
  lemma {:induction false} CountersWitness(db: Db, commits: seq<Commit>)
    ensures Replay(db, commits).revision >= db.revision && Replay(db, commits).dataVersion == db.dataVersion + |commits|
    ensures Replay(db, commits).revision == db.revision <==> forall i :: 0 <= i < |commits| ==> !Revisioned(commits[i])
    ensures Replay(db, commits).revision == db.revision ==>
              forall p: Part :: !p.operational ==> Replay(db, commits).Read(p) == db.Read(p)
    ensures Replay(db, commits).dataVersion == db.dataVersion ==> Replay(db, commits) == db
  {
    if commits != [] {
      var n := |commits| - 1;
      CountersWitness(db, commits[..n]);
      forall i | 0 <= i < n
        ensures commits[..n][i] == commits[i]
      {
      }
    }
  }

  /** The corpus with the history of its committed states. */
  class Corpus {
    var db: Db
    ghost var trace: seq<Db>
    ghost var own: seq<Commit>            // what this goroutine committed

    constructor (db: Db)
      ensures Valid() && this.db == db && trace == [db] && own == []
    {
      this.db := db;
      trace, own := [db], [];
    }

    ghost predicate Valid()
      reads this
    {
      && trace != [] && trace[|trace| - 1] == db
      && forall i :: 0 < i < |trace| ==> Committed(trace[i - 1], trace[i])
    }

    /** Everything other goroutines and processes may commit while this one is not looking. */
    method Interfere()
      requires Valid()
      modifies this
      ensures Valid() && old(trace) <= trace && own == old(own)
    {
    }

    /** This goroutine's own transaction. */
    method Write(c: Commit)
      requires Valid()
      modifies this
      ensures Valid() && trace == old(trace) + [db] && db == Apply(old(db), c) && own == old(own) + [c]
    {
      db := Apply(db, c);
      trace, own := trace + [db], own + [c];
    }
  }

  ghost predicate Committed(before: Db, after: Db) {
    exists c: Commit :: after == Apply(before, c)
  }

  ghost predicate History(trace: seq<Db>) {
    forall i :: 0 < i < |trace| ==> Committed(trace[i - 1], trace[i])
  }

  lemma CommitEffect(before: Db, after: Db)
    requires Committed(before, after)
    ensures after.revision >= before.revision && after.dataVersion > before.dataVersion
    ensures after.revision == before.revision ==> forall p: Part :: !p.operational ==> after.Read(p) == before.Read(p)
  {
    var c: Commit :| after == Apply(before, c);
    CountersWitness(before, [c]);
    assert Replay(before, [c][..0]) == before;
    assert Replay(before, [c]) == after;
  }

  /** Along any history, equal revisions enclose an unchanged revisioned part, and equal data
      versions enclose nothing. */
  lemma {:induction false} HistoryWitness(trace: seq<Db>, m: nat, n: nat)
    requires History(trace) && m <= n < |trace|
    ensures trace[m].revision <= trace[n].revision && trace[m].dataVersion <= trace[n].dataVersion
    ensures trace[m].revision == trace[n].revision ==>
              forall p: Part :: !p.operational ==> trace[n].Read(p) == trace[m].Read(p)
    ensures trace[m].dataVersion == trace[n].dataVersion ==> m == n
  {
    if m < n {
      HistoryWitness(trace, m, n - 1);
      CommitEffect(trace[n - 1], trace[n]);
    }
  }

  datatype BeginResult = Begun(revision: nat) | SnapshotUnavailable | SnapshotExpired(current: nat)

  /** A caller's pin, as the stored token resolves: to a watermark, or not at all. */
  datatype Token = Unresolvable | Watermark(revision: nat)

  /** beginCorpusRead. The pin is resolved after the revision was read. */
  method BeginCorpusRead(c: Corpus, token: Option<Token>) returns (r: BeginResult)
    requires c.Valid()
    modifies c
    ensures c.Valid() && old(c.trace) <= c.trace && c.own == old(c.own)
    ensures r.Begun? ==> r.revision == old(c.db).revision
                         && (token.Some? ==> token.value == Watermark(r.revision))
    ensures r.SnapshotUnavailable? <==> token == Some(Unresolvable)
    ensures r.SnapshotExpired? <==>
              token.Some? && token.value.Watermark? && token.value.revision != old(c.db).revision
  {
    var revision := c.db.revision;
    c.Interfere();
    if token.None? {
      return Begun(revision);
    }
    if token.value.Unresolvable? {
      return SnapshotUnavailable;
    }
    if token.value.revision != revision {
      return SnapshotExpired(revision);
    }
    r := Begun(revision);
  }

  /** finishCorpusRead. */
  method FinishCorpusRead(c: Corpus, revision: nat) returns (ok: bool)
    ensures ok <==> c.db.revision == revision
  {
    ok := c.db.revision == revision;
  }

  datatype ReadResult =
    | Answer(revision: nat, values: seq<int>)
    | Rejected(why: BeginResult)
    | ExpiredDuringRead(started: nat)

  ghost predicate AtomicAt(trace: seq<Db>, t: nat, parts: seq<Part>, revision: nat, values: seq<int>) {
    t < |trace| && trace[t].revision == revision && values == trace[t].ReadAll(parts)
  }

  // ---------------------------------------------------------------------------
  // What the bracket guarantees
  // ---------------------------------------------------------------------------

  /** Two reads of operational parts can come from different states, so at most one is safe. */
  predicate AtMostOneOperational(parts: seq<Part>) {
    forall i, j :: 0 <= i < j < |parts| ==> !parts[i].operational || !parts[j].operational
  }

  /** A run of the bracket: part k was read in state `moments[k]`, in order, between two states
      of equal revision. */
  ghost predicate Bracketed(trace: seq<Db>, moments: seq<nat>, parts: seq<Part>, values: seq<int>) {
    && History(trace) && trace != [] && |moments| == |parts| == |values|
    && trace[0].revision == trace[|trace| - 1].revision
    && (forall i :: 0 <= i < |moments| ==> moments[i] < |trace|)
    && (forall i, j :: 0 <= i < j < |moments| ==> moments[i] <= moments[j])
    && (forall i :: 0 <= i < |moments| ==> values[i] == trace[moments[i]].Read(parts[i]))
  }

  ghost predicate Atomic(trace: seq<Db>, parts: seq<Part>, values: seq<int>) {
    exists t :: 0 <= t < |trace| && values == trace[t].ReadAll(parts)
  }

  ghost predicate AlwaysAtomic(parts: seq<Part>) {
    forall trace, moments, values :: Bracketed(trace, moments, parts, values) ==> Atomic(trace, parts, values)
  }

  /** With at most one operational read, everything was read as at that read's moment. */
  lemma BracketIsAtomic(trace: seq<Db>, moments: seq<nat>, parts: seq<Part>, values: seq<int>) returns (t: nat)
    requires Bracketed(trace, moments, parts, values) && AtMostOneOperational(parts)
    ensures t < |trace| && values == trace[t].ReadAll(parts)
  {
    t := 0;
    if k :| 0 <= k < |parts| && parts[k].operational {
      t := moments[k];
    }
    forall i | 0 <= i < |parts|
      ensures values[i] == trace[t].Read(parts[i])
    {
      if !parts[i].operational {
        HistoryWitness(trace, 0, t);
        HistoryWitness(trace, t, |trace| - 1);
        HistoryWitness(trace, 0, moments[i]);
        HistoryWitness(trace, moments[i], |trace| - 1);
      }
    }
  }

  /** Two commits to operational parts, after which one part's middle value and the other's last
      value are in no common state. */
  lemma MixedStates(p: Part, q: Part) returns (trace: seq<Db>)
    requires p.operational && q.operational
    ensures |trace| == 3 && History(trace) && trace[0].revision == trace[2].revision
    ensures trace[1].Read(p) == 1 && trace[2].Read(q) == 3
    ensures forall t :: 0 <= t < 3 ==> trace[t].Read(p) != 1 || trace[t].Read(q) != 3
  {
    var one: Commit, two: Commit := map[p := 1], map[p := 2][q := 3];
    assert !Revisioned(one) && !Revisioned(two);
    var start := Db(map[], 0, 0);
    trace := [start, Apply(start, one), Apply(Apply(start, one), two)];
    assert Committed(trace[0], trace[1]) && Committed(trace[1], trace[2]);
  }

  /** A passing bracket whose reads of two operational positions, even of one and the same part,
      come from no single state. */
  lemma OperationalReadsMix(parts: seq<Part>, i: nat, j: nat) returns (trace: seq<Db>, moments: seq<nat>, values: seq<int>)
    requires i < j < |parts| && parts[i].operational && parts[j].operational
    ensures Bracketed(trace, moments, parts, values) && !Atomic(trace, parts, values)
  {
    trace := MixedStates(parts[i], parts[j]);
    moments := seq(|parts|, k => if k <= i then 1 else 2);
    values := seq(|parts|, k requires 0 <= k < |parts| => trace[if k <= i then 1 else 2].Read(parts[k]));
    forall t | 0 <= t < |trace|
      ensures values != trace[t].ReadAll(parts)
    {
      assert trace[t].ReadAll(parts)[i] == trace[t].Read(parts[i]) && trace[t].ReadAll(parts)[j] == trace[t].Read(parts[j]);
      assert values[i] == 1 && values[j] == 3;
    }
  }

  /** The exact reach of the bracket: what passes it is atomic in every history if and only if
      at most one of the reads is operational. */
  lemma BracketAtomicIff(parts: seq<Part>)
    ensures AlwaysAtomic(parts) <==> AtMostOneOperational(parts)
  {
    if AtMostOneOperational(parts) {
      forall trace, moments, values | Bracketed(trace, moments, parts, values)
        ensures Atomic(trace, parts, values)
      {
        var t := BracketIsAtomic(trace, moments, parts, values);
      }
    } else {
      var i, j :| 0 <= i < j < |parts| && parts[i].operational && parts[j].operational;
      var trace, moments, values := OperationalReadsMix(parts, i, j);
    }
  }

  /** A composed read under the bracket, at most one of its parts operational. An answer equals
      one atomic read at the returned revision, at a moment inside the call; the read is given
      up exactly when the revision moved meanwhile. */
  method ComposedRead(c: Corpus, parts: seq<Part>, token: Option<Token>) returns (r: ReadResult, ghost at: nat)
    requires c.Valid() && AtMostOneOperational(parts)
    modifies c
    ensures c.Valid() && old(c.trace) <= c.trace && c.own == old(c.own)
    ensures r.Answer? ==> at >= |old(c.trace)| - 1 && AtomicAt(c.trace, at, parts, r.revision, r.values)
                          && c.db.revision == r.revision
                          && (token.Some? ==> token.value == Watermark(r.revision))
    ensures r.ExpiredDuringRead? ==> r.started == old(c.db).revision < c.db.revision
    ensures r.Rejected? ==> token.Some? && token.value != Watermark(old(c.db).revision)
  {
    ghost var start := |c.trace| - 1;
    at := start;
    var begin := BeginCorpusRead(c, token);
    if !begin.Begun? {
      return Rejected(begin), at;
    }
    var revision := begin.revision;
    var values: seq<int> := [];
    ghost var moments: seq<nat> := [];
    while |values| < |parts|
      invariant c.Valid() && old(c.trace) <= c.trace && c.own == old(c.own) && |moments| == |values| <= |parts|
      invariant forall i :: 0 <= i < |moments| ==> start <= moments[i] < |c.trace|
      invariant forall i, j :: 0 <= i < j < |moments| ==> moments[i] <= moments[j]
      invariant forall i :: 0 <= i < |moments| ==> values[i] == c.trace[moments[i]].Read(parts[i])
      decreases |parts| - |values|
    {
      moments := moments + [|c.trace| - 1];
      values := values + [c.db.Read(parts[|values|])];
      c.Interfere();
    }
    HistoryWitness(c.trace, start, |c.trace| - 1);
    var ok := FinishCorpusRead(c, revision);
    if !ok {
      return ExpiredDuringRead(revision), at;
    }
    at := AtomicSince(c.trace, start, moments, parts, values);
    r := Answer(revision, values);
  }

  lemma AtomicSince(trace: seq<Db>, start: nat, moments: seq<nat>, parts: seq<Part>, values: seq<int>) returns (at: nat)
    requires History(trace) && start < |trace| && AtMostOneOperational(parts) && |moments| == |parts| == |values|
    requires trace[start].revision == trace[|trace| - 1].revision
    requires forall i :: 0 <= i < |moments| ==> start <= moments[i] < |trace|
    requires forall i, j :: 0 <= i < j < |moments| ==> moments[i] <= moments[j]
    requires forall i :: 0 <= i < |moments| ==> values[i] == trace[moments[i]].Read(parts[i])
    ensures start <= at && AtomicAt(trace, at, parts, trace[start].revision, values)
  {
    var since := trace[start..];
    forall i | 0 < i < |since|
      ensures Committed(since[i - 1], since[i])
    {
      assert since[i] == trace[start + i] && since[i - 1] == trace[start + i - 1];
    }
    var t := BracketIsAtomic(since, seq(|moments|, i requires 0 <= i < |moments| => (moments[i] - start) as nat), parts, values);
    at := start + t;
    HistoryWitness(trace, start, at);
    HistoryWitness(trace, at, |trace| - 1);
  }
}
