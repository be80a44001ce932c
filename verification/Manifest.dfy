/** Contribution manifests (internal/app/manifest.go): the optimistic retry loop around their
    assembly, the reference check before they are saved, and the choice of the run that
    speaks for each validation. */
module Manifest {
  import opened Options
  import opened CorpusRead

  // ---------------------------------------------------------------------------
  // Reference validation
  // ---------------------------------------------------------------------------

  datatype Validation = Validation(definitionId: string, runId: string)

  datatype Predicate = Predicate(evidence: seq<string>, validations: seq<Validation>, refs: seq<string>)

  /** strings.Cut at the first colon. */
  function Colon(ref: string): (i: nat)
    ensures i <= |ref| && ':' !in ref[..i] && (i < |ref| ==> ref[i] == ':')
  {
    if ref == "" || ref[0] == ':' then 0 else 1 + Colon(ref[1..])
  }

  /** A readiness reference names nothing of this manifest, or something that is in it. */
  predicate Resolves(p: Predicate, ref: string) {
    var i := Colon(ref);
    i < |ref| ==>
      var kind, id := ref[..i], ref[i + 1..];
      && (kind == "evidence" ==> id in p.evidence)
      && (kind == "validation_definition" ==> exists v :: v in p.validations && v.definitionId == id)
      && (kind == "validation_run" ==> exists v :: v in p.validations && v.runId == id)
  }

  /** What the references mean, whatever their identifiers hold: text without a colon names
      nothing, and a kind before the first colon names an identity of that kind. */
  lemma ReferencesMean(p: Predicate, kind: string, id: string)
    requires ':' !in kind
    ensures Resolves(p, kind)
    ensures Resolves(p, kind + ":" + id) <==>
              && (kind == "evidence" ==> id in p.evidence)
              && (kind == "validation_definition" ==> exists v :: v in p.validations && v.definitionId == id)
              && (kind == "validation_run" ==> exists v :: v in p.validations && v.runId == id)
  {
    var ref := kind + ":" + id;
    ColonAfter(kind, id);
    assert ref[..|kind|] == kind && ref[|kind| + 1..] == id;
  }

  lemma {:induction false} ColonAfter(kind: string, id: string)
    requires ':' !in kind
    ensures Colon(kind + ":" + id) == |kind|
  {
    if kind != "" {
      ColonAfter(kind[1..], id);
      assert (kind + ":" + id)[1..] == kind[1..] + ":" + id;
    }
  }

  /** validateManifestReferences, over the three identity sets it builds first. */
  method ValidateReferences(p: Predicate) returns (ok: bool, missing: string)
    ensures ok <==> forall ref :: ref in p.refs ==> Resolves(p, ref)
    ensures !ok ==> missing in p.refs && !Resolves(p, missing)
  {
    var definitionIds: set<string>, runIds: set<string> := {}, {};
    for i := 0 to |p.validations|
      invariant forall id :: id in definitionIds <==> exists v :: v in p.validations[..i] && v.definitionId == id
      invariant forall id :: id in runIds <==> exists v :: v in p.validations[..i] && v.runId == id
    {
      assert p.validations[..i + 1] == p.validations[..i] + [p.validations[i]];
      assert p.validations[i] in p.validations[..i + 1];
      definitionIds := definitionIds + {p.validations[i].definitionId};
      runIds := runIds + {p.validations[i].runId};
    }
    assert p.validations[..|p.validations|] == p.validations;
    for k := 0 to |p.refs|
      invariant forall ref :: ref in p.refs[..k] ==> Resolves(p, ref)
    {
      var ref := p.refs[k];
      var i := Colon(ref);
      if i < |ref| {
        var kind, id := ref[..i], ref[i + 1..];
        var absent := match kind
                      case "evidence" => id !in p.evidence
                      case "validation_definition" => id !in definitionIds
                      case "validation_run" => id !in runIds
                      case _ => false;
        assert absent <==> !Resolves(p, ref);
        if absent {
          return false, ref;
        }
      }
      assert Resolves(p, ref);
    }
    return true, "";
  }

  // ---------------------------------------------------------------------------
  // The optimistic loop
  // ---------------------------------------------------------------------------

  const ATTEMPTS := 3

  datatype Result =
    | Saved(statement: Predicate, revision: nat)
    | PinRejected
    | AssemblyFailed
    | Stale(expected: nat)
    | DanglingReference(ref: string)
    | RetriesExhausted

  /** What a manifest is assembled from and how; assembly may reject what it read. */
  datatype Recipe = Recipe(parts: seq<Part>, assemble: seq<int> -> Option<Predicate>, encode: Predicate -> Commit)

  /** Each value was read in some state of the call. */
  ghost predicate ReadDuring(trace: seq<Db>, from: nat, parts: seq<Part>, values: seq<int>) {
    |values| == |parts| && forall i :: 0 <= i < |values| ==> ReadSomewhere(trace, from, parts[i], values[i])
  }

  ghost predicate ReadSomewhere(trace: seq<Db>, from: int, part: Part, value: int) {
    exists t :: 0 <= from <= t < |trace| && trace[t].Read(part) == value
  }

  lemma ReadEarlier(trace: seq<Db>, later: seq<Db>, from: nat, parts: seq<Part>, values: seq<int>)
    requires trace <= later && ReadDuring(trace, from, parts, values)
    ensures ReadDuring(later, from, parts, values)
  {
    forall i | 0 <= i < |values|
      ensures ReadSomewhere(later, from, parts[i], values[i])
    {
      assert ReadSomewhere(trace, from, parts[i], values[i]);
      var t :| 0 <= from <= t < |trace| && trace[t].Read(parts[i]) == values[i];
      assert later[t].Read(parts[i]) == values[i];
    }
  }

  /** Read every part in turn while others commit. */
  method AssembleParts(c: Corpus, recipe: Recipe, ghost start: nat) returns (values: seq<int>)
    requires c.Valid() && start == |c.trace| - 1
    modifies c
    ensures c.Valid() && old(c.trace) <= c.trace && c.own == old(c.own) && |values| == |recipe.parts|
    ensures c.db.dataVersion == c.trace[start].dataVersion ==> values == c.trace[start].ReadAll(recipe.parts)
    ensures ReadDuring(c.trace, start, recipe.parts, values)
  {
    values := [];
    while |values| < |recipe.parts|
      invariant c.Valid() && old(c.trace) <= c.trace && c.own == old(c.own) && |values| <= |recipe.parts|
      invariant ReadDuring(c.trace, start, recipe.parts[..|values|], values)
      invariant c.db.dataVersion == c.trace[start].dataVersion ==>
                  forall i :: 0 <= i < |values| ==> values[i] == c.trace[start].Read(recipe.parts[i])
      decreases |recipe.parts| - |values|
    {
      ghost var now := |c.trace| - 1;
      HistoryWitness(c.trace, start, now);
      ghost var was := c.trace;
      var part := recipe.parts[|values|];
      values := values + [c.db.Read(part)];
      assert was[now].Read(part) == values[|values| - 1];
      assert ReadDuring(was, start, recipe.parts[..|values|], values);
      c.Interfere();
      ReadEarlier(was, c.trace, start, recipe.parts[..|values|], values);
      HistoryWitness(c.trace, start, now);
      HistoryWitness(c.trace, now, |c.trace| - 1);
    }
  }

  /** A statement was assembled from one state of the whole corpus, operational parts included,
      whose revision is the one returned, and its references resolve. */
  ghost predicate Assembled(trace: seq<Db>, from: nat, at: nat, recipe: Recipe, token: Option<Token>, r: Result) {
    && r.Saved?
    && from <= at < |trace|
    && trace[at].revision == r.revision
    && recipe.assemble(trace[at].ReadAll(recipe.parts)) == Some(r.statement)
    && (forall ref :: ref in r.statement.refs ==> Resolves(r.statement, ref))
    && (token.Some? ==> token.value == Watermark(r.revision))
  }

  /** Why an assembly was rejected: what was read during the call cannot be assembled, or the
      statement of one single state of the whole corpus dangles where `r` says. */
  ghost predicate RejectedAssembly(trace: seq<Db>, from: nat, at: nat, recipe: Recipe, r: Result) {
    match r
    case AssemblyFailed => exists values :: ReadDuring(trace, from, recipe.parts, values) && recipe.assemble(values).None?
    case DanglingReference(ref) =>
      && from <= at < |trace|
      && var statement := recipe.assemble(trace[at].ReadAll(recipe.parts));
         statement.Some? && ref in statement.value.refs && !Resolves(statement.value, ref)
    case _ => false
  }

  lemma ReadFromEarlier(trace: seq<Db>, from: nat, start: nat, parts: seq<Part>, values: seq<int>)
    requires from <= start && ReadDuring(trace, start, parts, values)
    ensures ReadDuring(trace, from, parts, values)
  {
    forall i | 0 <= i < |values|
      ensures ReadSomewhere(trace, from, parts[i], values[i])
    {
      assert ReadSomewhere(trace, start, parts[i], values[i]);
    }
  }

  /** The last commit of a history is this one. */
  ghost predicate EndsWith(trace: seq<Db>, commit: Commit) {
    |trace| >= 2 && trace[|trace| - 1] == Apply(trace[|trace| - 2], commit)
  }

  /** The save follows the last check, with a gap in which others may commit. */
  method Save(c: Corpus, commit: Commit)
    requires c.Valid()
    modifies c
    ensures c.Valid() && old(c.trace) <= c.trace && EndsWith(c.trace, commit) && c.own == old(c.own) + [commit]
  {
    c.Interfere();
    c.Write(commit);
  }

  /** The pin does not resolve, or names another revision than some state of the call had. */
  ghost predicate PinFails(trace: seq<Db>, from: int, token: Option<Token>) {
    token.Some? && (token.value.Unresolvable? || exists t :: 0 <= from <= t < |trace| && token.value.revision != trace[t].revision)
  }

  /** The start of a turn: the revision, then the caller's pin against the revision found a
      little later. */
  method Prepare(c: Corpus, token: Option<Token>) returns (revision: nat, begun: bool)
    requires c.Valid()
    modifies c
    ensures c.Valid() && old(c.trace) <= c.trace && c.own == old(c.own)
    ensures revision == old(c.db).revision <= c.db.revision && c.db.dataVersion >= old(c.db).dataVersion
    ensures !begun ==> PinFails(c.trace, |old(c.trace)| - 1, token)
    ensures begun && token.Some? ==> token.value.Watermark? && revision <= token.value.revision <= c.db.revision
  {
    ghost var first := |c.trace| - 1;
    revision := c.db.revision;
    c.Interfere();
    ghost var pinned := |c.trace| - 1;
    HistoryWitness(c.trace, first, pinned);
    begun := true;
    if token.Some? {
      var begin := BeginCorpusRead(c, token);
      begun := begin.Begun?;
    }
    HistoryWitness(c.trace, pinned, |c.trace| - 1);
  }

  /** One turn of the loop up to the save; `again` is the `continue` of the source. */
  method Attempt(c: Corpus, recipe: Recipe, token: Option<Token>)
    returns (again: bool, r: Result, ghost at: nat)
    requires c.Valid()
    modifies c
    ensures c.Valid() && old(c.trace) <= c.trace && c.own == old(c.own)
    ensures !again && r.Saved? ==> Assembled(c.trace, |old(c.trace)| - 1, at, recipe, token, r)
    ensures !again ==> !r.RetriesExhausted?
    ensures r.AssemblyFailed? || r.DanglingReference? ==> RejectedAssembly(c.trace, |old(c.trace)| - 1, at, recipe, r)
    ensures again || r.Stale? ==> c.db.dataVersion > old(c.db).dataVersion
    ensures !again && r.Stale? ==> token.Some?
    ensures r.PinRejected? ==> PinFails(c.trace, |old(c.trace)| - 1, token)
  {
    again, r, at := false, RetriesExhausted, |c.trace| - 1;
    ghost var first := at;
    var revision, begun := Prepare(c, token);
    at := |c.trace| - 1;
    if !begun {
      return false, PinRejected, at;
    }
    var watch := c.db.dataVersion;
    var values := AssembleParts(c, recipe, at);
    var statement := recipe.assemble(values);
    if statement.None? {
      ReadFromEarlier(c.trace, first, at, recipe.parts, values);
      return false, AssemblyFailed, at;
    }
    HistoryWitness(c.trace, at, |c.trace| - 1);
    if c.db.dataVersion != watch {
      return true, r, at;
    }
    c.Interfere();
    HistoryWitness(c.trace, at, |c.trace| - 1);
    if c.db.revision != revision {
      HistoryWitness(c.trace, first, |c.trace| - 1);
      return token.None?, Stale(revision), at;
    }
    var ok, missing := ValidateReferences(statement.value);
    if !ok {
      return false, DanglingReference(missing), at;
    }
    r := Saved(statement.value, revision);
  }

  /** contributionManifestWithRevision: at most three attempts, one save or none, and giving up
      on retries means that every one of the three saw a concurrent commit. */
  method ContributionManifest(c: Corpus, recipe: Recipe, token: Option<Token>)
    returns (r: Result, ghost at: nat, attempts: nat)
    requires c.Valid()
    modifies c
    ensures c.Valid() && old(c.trace) <= c.trace && attempts <= 3
    ensures c.own == old(c.own) + if r.Saved? then [recipe.encode(r.statement)] else []
    ensures r.Saved? ==> Assembled(c.trace, |old(c.trace)| - 1, at, recipe, token, r)
                         && EndsWith(c.trace, recipe.encode(r.statement))
    ensures r.RetriesExhausted? ==> attempts == ATTEMPTS && c.db.dataVersion >= old(c.db).dataVersion + ATTEMPTS
    ensures r.Stale? ==> token.Some?
    ensures r.PinRejected? ==> PinFails(c.trace, |old(c.trace)| - 1, token)
    ensures r.AssemblyFailed? || r.DanglingReference? ==> RejectedAssembly(c.trace, |old(c.trace)| - 1, at, recipe, r)
  {
    at, attempts, r := 0, 0, RetriesExhausted;
    while attempts < ATTEMPTS
      invariant c.Valid() && old(c.trace) <= c.trace && attempts <= ATTEMPTS && c.own == old(c.own) && r.RetriesExhausted?
      invariant c.db.dataVersion >= old(c.db).dataVersion + attempts
    {
      attempts := attempts + 1;
      var again, outcome, moment := Attempt(c, recipe, token);
      if again {
        continue;
      }
      r, at := outcome, moment;
      if outcome.Saved? {
        Save(c, recipe.encode(outcome.statement));
      }
      return;
    }
  }

  // ---------------------------------------------------------------------------
  // The run that speaks for a validation
  // ---------------------------------------------------------------------------

  datatype Run = Run(id: string, definitionId: string, kind: string, completedAt: int)

  type RunKey = (string, string)

  function KeyOf(run: Run): RunKey {
    (run.definitionId, run.kind)
  }

  /** Go's string order. */
  predicate Above(a: string, b: string) {
    if a == "" then false
    else if b == "" then true
    else if a[0] != b[0] then a[0] > b[0]
    else Above(a[1..], b[1..])
  }

  /** Later completion wins; equal completion falls back to the greater identifier. */
  predicate Supersedes(a: Run, b: Run) {
    a.completedAt > b.completedAt || (a.completedAt == b.completedAt && Above(a.id, b.id))
  }

  lemma {:induction false} AboveIsStrictOrder(a: string, b: string, c: string)
    ensures !Above(a, a)
    ensures Above(a, b) && Above(b, c) ==> Above(a, c)
    ensures a == b || Above(a, b) || Above(b, a)
  {
    if a != "" {
      AboveIsStrictOrder(a[1..], if b == "" then b else b[1..], if c == "" then c else c[1..]);
      if b != "" && a[0] == b[0] && a[1..] == b[1..] {
        assert a == [a[0]] + a[1..] && b == [b[0]] + b[1..];
      }
    }
  }

  /** One run per key, of that key, that no run of the key supersedes. */
  ghost predicate Selects(runs: seq<Run>, selected: map<RunKey, Run>) {
    && (forall r :: r in runs ==> KeyOf(r) in selected && !Supersedes(r, selected[KeyOf(r)]))
    && (forall k :: k in selected ==> selected[k] in runs && KeyOf(selected[k]) == k)
  }

  function Ids(selected: map<RunKey, Run>): map<RunKey, string> {
    map k | k in selected :: selected[k].id
  }

  /** In byte order the first text comes before the second: it is a proper prefix of it, or has the
      smaller character where they first differ. */
  ghost predicate Precedes(a: string, b: string) {
    exists n :: FirstApart(a, b, n) && (n == |a| || a[n] < b[n])
  }

  ghost predicate FirstApart(a: string, b: string, n: int) {
    0 <= n < |b| && n <= |a| && a[..n] == b[..n] && (n < |a| ==> a[n] != b[n])
  }

  lemma {:induction false} AbovePrecedes(a: string, b: string)
    ensures Above(b, a) ==> Precedes(a, b)
  {
    if Above(b, a) {
      if a == "" || a[0] != b[0] {
        assert FirstApart(a, b, 0);
      } else {
        AbovePrecedes(a[1..], b[1..]);
        var n :| FirstApart(a[1..], b[1..], n) && (n == |a[1..]| || a[1..][n] < b[1..][n]);
        assert a[..n + 1] == [a[0]] + a[1..][..n] && b[..n + 1] == [b[0]] + b[1..][..n];
        assert FirstApart(a, b, n + 1);
      }
    }
  }

  /** The identifier is that of a run of this definition and kind which no other completed after,
      and of those that completed with it the one with the greatest identifier. */
  ghost predicate IsLatest(runs: seq<Run>, definitionId: string, kind: string, id: string) {
    exists r :: r in runs && r.definitionId == definitionId && r.kind == kind && r.id == id
                && forall s :: s in runs && s.definitionId == definitionId && s.kind == kind ==>
                     s.completedAt <= r.completedAt
                     && (s.completedAt == r.completedAt && s.id != id ==> Precedes(s.id, id))
  }

  lemma SelectedIsLatest(runs: seq<Run>, selected: map<RunKey, Run>, definitionId: string, kind: string)
    requires Selects(runs, selected) && (definitionId, kind) in selected
    ensures IsLatest(runs, definitionId, kind, selected[(definitionId, kind)].id)
  {
    var r := selected[(definitionId, kind)];
    forall s | s in runs && s.definitionId == definitionId && s.kind == kind
      ensures s.completedAt <= r.completedAt && (s.completedAt == r.completedAt && s.id != r.id ==> Precedes(s.id, r.id))
    {
      assert KeyOf(s) == (definitionId, kind);
      AboveIsStrictOrder(s.id, r.id, s.id);
      AbovePrecedes(s.id, r.id);
    }
  }

  /** latestValidationRuns: for every definition and kind that has a run, and no other, the
      identifier of its latest. */
  method LatestValidationRuns(runs: seq<Run>) returns (ids: map<RunKey, string>)
    ensures exists selected :: Selects(runs, selected) && ids == Ids(selected)
    ensures forall d, k :: (d, k) in ids <==> exists r :: r in runs && r.definitionId == d && r.kind == k
    ensures forall d, k :: (d, k) in ids ==> IsLatest(runs, d, k, ids[(d, k)])
  {
    var best: map<RunKey, Run> := map[];
    for i := 0 to |runs|
      invariant Selects(runs[..i], best)
    {
      var run := runs[i];
      assert runs[..i + 1] == runs[..i] + [run];
      var key := KeyOf(run);
      if key !in best || Supersedes(run, best[key]) {
        forall r | r in runs[..i] && KeyOf(r) == key
          ensures !Supersedes(r, run)
        {
          AboveIsStrictOrder(r.id, run.id, best[key].id);
        }
        AboveIsStrictOrder(run.id, run.id, run.id);
        best := best[key := run];
      }
    }
    assert runs[..|runs|] == runs;
    ids := Ids(best);
    forall d, k
      ensures (d, k) in ids <==> exists r :: r in runs && r.definitionId == d && r.kind == k
      ensures (d, k) in ids ==> IsLatest(runs, d, k, ids[(d, k)])
    {
      if (d, k) in best {
        SelectedIsLatest(runs, best, d, k);
        assert best[(d, k)].definitionId == d && best[(d, k)].kind == k;
      }
      if r :| r in runs && r.definitionId == d && r.kind == k {
        assert KeyOf(r) == (d, k);
      }
    }
  }

  /** The choice depends on which runs exist, not on the order the store lists them in. */
  lemma SelectionIgnoresOrder(runs1: seq<Run>, runs2: seq<Run>, s1: map<RunKey, Run>, s2: map<RunKey, Run>)
    requires forall r :: r in runs1 <==> r in runs2
    requires Selects(runs1, s1) && Selects(runs2, s2)
    ensures Ids(s1) == Ids(s2)
  {
    forall k
      ensures k in s1 <==> k in s2
      ensures k in s1 ==> s1[k].id == s2[k].id
    {
      assert k in s1 ==> s1[k] in runs2;
      assert k in s2 ==> s2[k] in runs1;
      if k in s1 {
        AboveIsStrictOrder(s1[k].id, s2[k].id, s1[k].id);
      }
    }
  }
}
