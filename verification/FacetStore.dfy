/** One facet of one thread in the corpus: the coverage row that carries the compare-and-swap
    sequence and the observation pages beside it, as written by internal/corpus/facets.go and
    internal/corpus/hydration.go. Times are nanoseconds; zero is the unset time. */
module FacetStore {
  import opened Options

  datatype Page = Page(updated: nat, payload: string, searchText: string)

  datatype Coverage = Coverage(updated: nat, sequence: nat, complete: bool)

  /** `lastSequence` is the corpus-wide observation counter, which other facets advance too. */
  datatype Facet = Facet(coverage: Option<Coverage>, pages: seq<Page>, lastSequence: nat) {
    predicate Valid() {
      coverage.Some? ==> 0 < coverage.value.sequence <= lastSequence
    }

    /** What a hydrator captures before its first fetch. */
    function Baseline(): nat {
      if coverage.Some? then coverage.value.sequence else 0
    }
  }

  const NEW_FACET := Facet(None, [], 0)

  function Latest(updated: nat, pages: seq<Page>): nat
    decreases pages
  {
    if pages == [] then updated
    else Latest(if pages[0].updated > updated then pages[0].updated else updated, pages[1..])
  }

  /** advanceFacetTx: the row moves only for a source time that is not older. */
  function MoveCoverage(f: Facet, updated: nat, complete: bool, sequence: nat): Facet {
    if f.coverage.None? || updated > f.coverage.value.updated
       || (updated == f.coverage.value.updated && sequence > f.coverage.value.sequence) then
      f.(coverage := Some(Coverage(updated, sequence, complete)))
    else
      f
  }

  /** AdvanceFacetCAS: coverage alone, and whether the call reports it as applied. */
  function AdvanceCas(f: Facet, updated: nat, complete: bool, expected: nat): (Facet, bool) {
    if f.Baseline() != expected then (f, false)
    else
      var sequence := f.lastSequence + 1;
      (MoveCoverage(f.(lastSequence := sequence), updated, complete, sequence), true)
  }

  predicate Replaces(f: Facet, latest: nat, complete: bool) {
    f.coverage.None? || latest > f.coverage.value.updated || (latest == f.coverage.value.updated && complete)
  }

  /** ApplyFacetObservationSetCAS: one transaction replaces the pages and moves the row. */
  function ApplyCas(f: Facet, updated: nat, pages: seq<Page>, complete: bool, expected: nat): (Facet, bool) {
    var latest := Latest(updated, pages);
    if latest == 0 || f.Baseline() != expected || !Replaces(f, latest, complete) then (f, false)
    else
      var sequence := f.lastSequence + |pages| + 1;
      (MoveCoverage(Facet(f.coverage, pages, sequence), latest, complete, sequence), true)
  }

  /** A finished fetch and the write it leads to. */
  datatype Write = Complete(updated: nat, pages: seq<Page>) | Incomplete(updated: nat)

  function Cas(f: Facet, w: Write, expected: nat): (Facet, bool) {
    match w
    case Complete(updated, pages) => ApplyCas(f, updated, pages, true, expected)
    case Incomplete(updated) => AdvanceCas(f, updated, false, expected)
  }

  predicate Moves(f: Facet, w: Write, expected: nat) {
    Cas(f, w, expected).0.coverage != f.coverage
  }

  lemma {:induction false} LatestBounds(updated: nat, pages: seq<Page>)
    ensures Latest(updated, pages) >= updated
    ensures forall p :: p in pages ==> p.updated <= Latest(updated, pages)
    ensures Latest(updated, pages) == updated || exists p :: p in pages && p.updated == Latest(updated, pages)
    decreases pages
  {
    if pages != [] {
      LatestBounds(if pages[0].updated > updated then pages[0].updated else updated, pages[1..]);
    }
  }

  /** Exactly when a write moves the row, and what it then leaves: the sequence strictly grows,
      the time is the write's, a complete write installs its own pages, an incomplete one keeps the
      stored pages. */
  lemma CasEffect(f: Facet, w: Write, expected: nat)
    requires f.Valid()
    ensures var (f', applied) := Cas(f, w, expected);
            && f'.Valid()
            && (Moves(f, w, expected) <==>
                  f.Baseline() == expected &&
                  match w
                  case Complete(updated, pages) =>
                    Latest(updated, pages) > 0 && (f.coverage.Some? ==> Latest(updated, pages) >= f.coverage.value.updated)
                  case Incomplete(updated) => f.coverage.None? || updated >= f.coverage.value.updated)
            && (Moves(f, w, expected) ==> applied && f'.Baseline() > f.Baseline() && f'.coverage.Some?
                                          && f'.coverage.value.complete == w.Complete?
                                          && f'.coverage.value.updated ==
                                             if w.Complete? then Latest(w.updated, w.pages) else w.updated)
            && (!Moves(f, w, expected) ==> f'.Baseline() == f.Baseline() && f'.pages == f.pages)
            && f'.pages == (if w.Complete? && applied then w.pages else f.pages)
            && (w.Complete? ==> (applied <==> Moves(f, w, expected)))
  {
  }

  /** A reported incomplete write did move the row exactly when its source time is not older;
      otherwise the caller is told "applied" although the row still carries the old sequence. */
  lemma IncompleteReportExact(f: Facet, updated: nat, expected: nat)
    requires f.Valid()
    ensures Cas(f, Incomplete(updated), expected).1 <==> f.Baseline() == expected
    ensures Cas(f, Incomplete(updated), expected).1 ==>
              (Moves(f, Incomplete(updated), expected) <==> f.coverage.None? || updated >= f.coverage.value.updated)
  {
    CasEffect(f, Incomplete(updated), expected);
  }

  /** Two writers that captured the same baseline can therefore both be told "applied". */
  lemma TwoAppliedReports()
    ensures var f := Facet(Some(Coverage(10, 1, true)), [], 1);
            var first := Cas(f, Incomplete(5), f.Baseline());
            var second := Cas(first.0, Incomplete(10), f.Baseline());
            && f.Valid() && first.1 && second.1
            && first.0.coverage == f.coverage && second.0.coverage != f.coverage
  {
  }
}
