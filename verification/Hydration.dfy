/** One hydrator's fetch loop and search-text collapse (internal/app/hydration.go), ending in
    the compare-and-swap write of FacetStore. */
module Hydration {
  import opened FacetStore

  datatype Item = Item(updated: nat, text: string)

  datatype Response = Failed | Listed(items: seq<Item>, hasNext: bool, nextPage: nat)

  /** A paginated facet: the provider's answer for each page number, whether a page can be
      marshalled, and how it is stored. */
  datatype Spec = Spec(
    fetch: nat -> Response,
    marshals: seq<Item> -> bool,
    render: seq<Item> -> string,
    search: seq<Item> -> string)

  /** One attempt at a write: done, turned away busy, failed, or reported so after it committed. */
  datatype Answer = Done | Busy | BusyButCommitted | Refused | RefusedButCommitted

  /** `baselineRead` tells whether the baseline can be read, `answers(k)` ends attempt k of the
      write, and `waits(k)` whether the context outlives the pause after it. */
  datatype Store = Store(baselineRead: bool, answers: nat -> Answer, waits: nat -> bool)

  const MAX_ATTEMPTS := 4

  datatype Outcome = Error | Hydrated(count: nat, pages: nat, complete: bool)

  class FacetCell {
    var facet: Facet

    constructor (facet: Facet)
      ensures this.facet == facet
    {
      this.facet := facet;
    }
  }

  // ---------------------------------------------------------------------------
  // What a walk over the provider yields
  // ---------------------------------------------------------------------------

  /** The page number of the i-th request: 1, then whatever the previous page named next. */
  function PageAt(spec: Spec, i: nat): nat {
    if i == 0 then 1
    else match spec.fetch(PageAt(spec, i - 1))
         case Failed => 0
         case Listed(_, _, next) => next
  }

  function AnswerAt(spec: Spec, i: nat): Response {
    spec.fetch(PageAt(spec, i))
  }

  ghost predicate Answered(spec: Spec, live: nat -> bool, i: nat) {
    live(i) && AnswerAt(spec, i).Listed? && spec.marshals(AnswerAt(spec, i).items)
  }

  predicate HasNextAt(spec: Spec, i: nat) {
    AnswerAt(spec, i).Listed? && AnswerAt(spec, i).hasNext
  }

  /** The first `n` requests were made under a live context, answered and stored, and all but the
      last named a successor. */
  ghost predicate Walked(spec: Spec, live: nat -> bool, n: nat) {
    && (forall i :: 0 <= i < n ==> Answered(spec, live, i))
    && (forall i :: 0 <= i < n - 1 ==> HasNextAt(spec, i))
  }

  function LatestItem(items: seq<Item>): nat {
    if items == [] then 0
    else
      var rest := LatestItem(items[..|items| - 1]);
      if items[|items| - 1].updated > rest then items[|items| - 1].updated else rest
  }

  function PageTime(threadUpdated: nat, items: seq<Item>): nat {
    if LatestItem(items) == 0 then threadUpdated else LatestItem(items)
  }

  function Observe(spec: Spec, threadUpdated: nat, items: seq<Item>): Page {
    Page(PageTime(threadUpdated, items), spec.render(items), spec.search(items))
  }

  function ItemsAt(spec: Spec, i: nat): seq<Item> {
    if AnswerAt(spec, i).Listed? then AnswerAt(spec, i).items else []
  }

  function Observations(spec: Spec, threadUpdated: nat, n: nat): seq<Page> {
    if n == 0 then [] else Observations(spec, threadUpdated, n - 1) + [Observe(spec, threadUpdated, ItemsAt(spec, n - 1))]
  }

  function SourceTime(spec: Spec, threadUpdated: nat, n: nat): nat {
    if n == 0 then threadUpdated
    else
      var before := SourceTime(spec, threadUpdated, n - 1);
      var page := PageTime(threadUpdated, ItemsAt(spec, n - 1));
      if page > before then page else before
  }

  function ItemCount(spec: Spec, n: nat): nat {
    if n == 0 then 0 else ItemCount(spec, n - 1) + |ItemsAt(spec, n - 1)|
  }

  /** The write a finished walk of `n` requests leads to. */
  function WalkWrite(spec: Spec, threadUpdated: nat, n: nat, complete: bool): Write {
    if complete then Complete(SourceTime(spec, threadUpdated, n), Collapsed(Observations(spec, threadUpdated, n)))
    else Incomplete(SourceTime(spec, threadUpdated, n))
  }

  // ---------------------------------------------------------------------------
  // Search-text collapse
  // ---------------------------------------------------------------------------

  function SearchTexts(pages: seq<Page>): seq<string> {
    if pages == [] then []
    else
      var rest := SearchTexts(pages[..|pages| - 1]);
      if pages[|pages| - 1].searchText == "" then rest else rest + [pages[|pages| - 1].searchText]
  }

  function JoinLines(texts: seq<string>): string {
    if texts == [] then ""
    else if |texts| == 1 then texts[0]
    else JoinLines(texts[..|texts| - 1]) + "\n" + texts[|texts| - 1]
  }

  /** Every page keeps its payload and time; the search document moves to the first page. */
  function Collapsed(pages: seq<Page>): (r: seq<Page>) {
    seq(|pages|, i requires 0 <= i < |pages| =>
      pages[i].(searchText := if i == 0 then JoinLines(SearchTexts(pages)) else ""))
  }

  /** collapseFacetSearchText rewrites the slice in place. */
  method CollapseSearchText(pages: array<Page>)
    modifies pages
    ensures pages[..] == Collapsed(old(pages[..]))
  {
    if pages.Length == 0 {
      return;
    }
    ghost var was := pages[..];
    var texts: seq<string> := [];
    var i := 0;
    while i < pages.Length
      invariant 0 <= i <= pages.Length
      invariant texts == SearchTexts(was[..i])
      invariant forall k :: 0 <= k < i ==> pages[k] == was[k].(searchText := "")
      invariant forall k :: i <= k < pages.Length ==> pages[k] == was[k]
    {
      assert was[..i + 1][..i] == was[..i];
      if pages[i].searchText != "" {
        texts := texts + [pages[i].searchText];
      }
      pages[i] := pages[i].(searchText := "");
      i := i + 1;
    }
    assert was[..i] == was;
    pages[0] := pages[0].(searchText := JoinLines(texts));
  }

  lemma {:induction false} BlankTail(pages: seq<Page>, n: nat)
    requires 0 < n <= |pages|
    requires forall k :: 0 < k < n ==> pages[k].searchText == ""
    ensures SearchTexts(pages[..n]) == if pages[0].searchText == "" then [] else [pages[0].searchText]
  {
    assert pages[..n][..n - 1] == pages[..n - 1];
    if n > 1 {
      BlankTail(pages, n - 1);
    } else {
      assert pages[..0] == [];
    }
  }

  /** Collapsing loses nothing and settles at once: payloads and times stay, the document read
      back is the same, and a second collapse changes nothing. */
  lemma CollapseKeepsDocument(pages: seq<Page>)
    ensures |Collapsed(pages)| == |pages|
    ensures forall i :: 0 <= i < |pages| ==>
              Collapsed(pages)[i].payload == pages[i].payload && Collapsed(pages)[i].updated == pages[i].updated
    ensures JoinLines(SearchTexts(Collapsed(pages))) == JoinLines(SearchTexts(pages))
    ensures Collapsed(Collapsed(pages)) == Collapsed(pages)
  {
    if pages != [] {
      var once := Collapsed(pages);
      BlankTail(once, |once|);
      assert once[..|once|] == once;
    }
  }

  // ---------------------------------------------------------------------------
  // The write
  // ---------------------------------------------------------------------------

  /** The write took its effect on the row and the pages; a repetition that moved nothing may
      have used up further sequence numbers. */
  ghost predicate Took(before: Facet, after: Facet, w: Write) {
    var once := Cas(before, w, before.Baseline()).0;
    after.coverage == once.coverage && after.pages == once.pages && after.lastSequence >= once.lastSequence
  }

  /** A compare-and-swap repeated with its old baseline takes effect once. */
  lemma RepeatedWriteTakesOnce(before: Facet, after: Facet, w: Write)
    requires before.Valid() && after.Valid() && (after == before || Took(before, after, w))
    ensures var again := Cas(after, w, before.Baseline()).0; again.Valid() && Took(before, again, w)
  {
    CasEffect(before, w, before.Baseline());
    CasEffect(after, w, before.Baseline());
  }

  /** Attempt k is made: every one before it was turned away busy and waited out. */
  ghost predicate Attempted(store: Store, k: int) {
    forall j: nat :: j < k ==> (store.answers(j).Busy? || store.answers(j).BusyButCommitted?) && store.waits(j)
  }

  /** One of the first attempts and three repetitions is made and done. */
  ghost predicate Succeeds(store: Store) {
    exists k: nat :: k <= 3 && Attempted(store, k) && store.answers(k).Done?
  }

  /** RetryBusyValue around a compare-and-swap write: an attempt turned away busy is repeated, a
      few times, with the baseline captured before the fetch. */
  method WriteWithRetry(cell: FacetCell, w: Write, expected: nat, store: Store) returns (ok: bool)
    requires cell.facet.Valid() && expected == cell.facet.Baseline()
    modifies cell
    ensures cell.facet.Valid()
    ensures ok ==> Took(old(cell.facet), cell.facet, w)
    ensures !ok ==> cell.facet == old(cell.facet) || Took(old(cell.facet), cell.facet, w)
    ensures ok <==> Succeeds(store)
  {
    ok := false;
    var attempt := 0;
    while attempt < MAX_ATTEMPTS
      invariant 0 <= attempt <= MAX_ATTEMPTS && cell.facet.Valid() && !ok && Attempted(store, attempt)
      invariant cell.facet == old(cell.facet) || Took(old(cell.facet), cell.facet, w)
    {
      var answer := store.answers(attempt);
      if !answer.Busy? && !answer.Refused? {
        RepeatedWriteTakesOnce(old(cell.facet), cell.facet, w);
        var (facet, _) := Cas(cell.facet, w, expected);
        cell.facet := facet;
      }
      if answer.Done? {
        ok := true;
        return;
      }
      if answer.Refused? || answer.RefusedButCommitted? || !store.waits(attempt) {
        return;
      }
      attempt := attempt + 1;
    }
  }

  // ---------------------------------------------------------------------------
  // The fetch loop
  // ---------------------------------------------------------------------------

  /** A walk of `n` requests that needs no more: the provider named no next page, or the bound is
      reached. */
  ghost predicate WalkEnds(spec: Spec, live: nat -> bool, maxPages: nat, n: nat, complete: bool) {
    && Walked(spec, live, n) && n <= maxPages
    && (complete <==> n > 0 && !HasNextAt(spec, n - 1))
    && (!complete ==> n == maxPages)
  }

  /** hydratePaginatedFacet up to its write: collect pages until the provider has no next one,
      the page bound is reached, or a request or the context fails. */
  method FetchPages(spec: Spec, live: nat -> bool, maxPages: nat, threadUpdated: nat)
    returns (failed: bool, observations: seq<Page>, updated: nat, total: nat, pages: nat, complete: bool)
    ensures failed ==>
              pages < maxPages && Walked(spec, live, pages) && (pages > 0 ==> HasNextAt(spec, pages - 1))
              && !Answered(spec, live, pages)
    ensures !failed ==>
              && WalkEnds(spec, live, maxPages, pages, complete)
              && observations == Observations(spec, threadUpdated, pages)
              && updated == SourceTime(spec, threadUpdated, pages)
              && total == ItemCount(spec, pages)
  {
    failed, observations, updated, total, pages, complete := false, [], threadUpdated, 0, 0, false;
    var page := 1;
    while pages < maxPages && !complete
      invariant pages <= maxPages && Walked(spec, live, pages)
      invariant complete <==> pages > 0 && !HasNextAt(spec, pages - 1)
      invariant !complete ==> page == PageAt(spec, pages)
      invariant observations == Observations(spec, threadUpdated, pages)
      invariant updated == SourceTime(spec, threadUpdated, pages)
      invariant total == ItemCount(spec, pages)
      decreases maxPages - pages
    {
      if !live(pages) {
        failed := true;
        return;
      }
      var res := spec.fetch(page);
      if res.Failed? {
        failed := true;
        return;
      }
      if !spec.marshals(res.items) {
        failed := true;
        return;
      }
      assert res == AnswerAt(spec, pages) && Answered(spec, live, pages) && PageAt(spec, pages + 1) == res.nextPage;
      var pageUpdated := PageTime(threadUpdated, res.items);
      if pageUpdated > updated {
        updated := pageUpdated;
      }
      observations := observations + [Page(pageUpdated, spec.render(res.items), spec.search(res.items))];
      total := total + |res.items|;
      pages := pages + 1;
      complete := !res.hasNext;
      page := res.nextPage;
    }
  }

  // ---------------------------------------------------------------------------
  // What a stored walk looks like
  // ---------------------------------------------------------------------------

  ghost predicate PieceAt(doc: string, start: nat, text: string) {
    start + |text| <= |doc| && doc[start..start + |text|] == text
  }

  ghost predicate LineFeedAt(doc: string, at: nat) {
    at < |doc| && doc[at] == '\n'
  }

  /** The document is the texts one after the other, a line feed between each two: text k begins
      at `starts[k]`. */
  ghost predicate LaidOut(doc: string, texts: seq<string>, starts: seq<nat>) {
    && |starts| == |texts|
    && (texts == [] ==> doc == "")
    && (texts != [] ==> starts[0] == 0 && starts[|texts| - 1] + |texts[|texts| - 1]| == |doc|)
    && (forall k :: 0 <= k < |texts| ==> PieceAt(doc, starts[k], texts[k]))
    && (forall k :: 0 <= k < |texts| - 1 ==>
          LineFeedAt(doc, starts[k] + |texts[k]|) && starts[k + 1] == starts[k] + |texts[k]| + 1)
  }

  lemma {:induction false} JoinLaysOut(texts: seq<string>) returns (starts: seq<nat>)
    ensures LaidOut(JoinLines(texts), texts, starts)
  {
    if |texts| == 0 {
      return [];
    }
    if |texts| == 1 {
      return [0];
    }
    var n := |texts| - 1;
    starts := JoinLaysOut(texts[..n]);
    OneMoreText(JoinLines(texts[..n]), texts[..n], starts, texts[n]);
    assert texts == texts[..n] + [texts[n]];
    starts := starts + [|JoinLines(texts[..n])| + 1];
  }

  lemma OneMoreText(doc: string, texts: seq<string>, starts: seq<nat>, text: string)
    requires LaidOut(doc, texts, starts) && texts != []
    ensures LaidOut(doc + "\n" + text, texts + [text], starts + [|doc| + 1])
  {
    var more, all, from := doc + "\n" + text, texts + [text], starts + [|doc| + 1];
    forall k | 0 <= k < |all|
      ensures PieceAt(more, from[k], all[k])
    {
      if k < |texts| {
        PieceStays(doc, text, starts[k], texts[k]);
      } else {
        assert more[|doc| + 1..|doc| + 1 + |text|] == text;
      }
    }
    forall k | 0 <= k < |texts|
      ensures LineFeedAt(more, from[k] + |all[k]|) && from[k + 1] == from[k] + |all[k]| + 1
    {
      assert k < |texts| - 1 ==> LineFeedAt(doc, starts[k] + |texts[k]|);
    }
  }

  lemma PieceStays(doc: string, text: string, start: nat, piece: string)
    requires PieceAt(doc, start, piece)
    ensures PieceAt(doc + "\n" + text, start, piece)
  {
    assert (doc + "\n" + text)[start..start + |piece|] == doc[start..start + |piece|];
  }

  /** The search text of the items request i returned. */
  function SearchAt(spec: Spec): nat -> string {
    (i: nat) => spec.search(ItemsAt(spec, i))
  }

  /** The requests among the first n that have a text, in order. */
  ghost predicate Chosen(text: nat -> string, n: nat, requests: seq<nat>) {
    && (forall j, k :: 0 <= j < k < |requests| ==> requests[j] < requests[k])
    && (forall k :: 0 <= k < |requests| ==> requests[k] < n && text(requests[k]) != "")
    && (forall i: nat :: i < n && text(i) != "" ==> i in requests)
  }

  function TextsAt(text: nat -> string, requests: seq<nat>): seq<string> {
    seq(|requests|, k requires 0 <= k < |requests| => text(requests[k]))
  }

  ghost function ChosenUpTo(text: nat -> string, n: nat): seq<nat> {
    if n == 0 then []
    else if text(n - 1) == "" then ChosenUpTo(text, n - 1)
    else ChosenUpTo(text, n - 1) + [n - 1]
  }

  lemma {:induction false} ChosenUpToIsChosen(text: nat -> string, n: nat)
    ensures Chosen(text, n, ChosenUpTo(text, n))
  {
    if n > 0 {
      ChosenUpToIsChosen(text, n - 1);
    }
  }

  lemma TextsOneMore(text: nat -> string, requests: seq<nat>, i: nat)
    ensures TextsAt(text, requests + [i]) == TextsAt(text, requests) + [text(i)]
  {
  }

  lemma {:induction false} SearchTextsChosen(pages: seq<Page>, text: nat -> string)
    requires forall i :: 0 <= i < |pages| ==> pages[i].searchText == text(i)
    ensures SearchTexts(pages) == TextsAt(text, ChosenUpTo(text, |pages|))
  {
    if pages != [] {
      var n := |pages| - 1;
      SearchTextsChosen(pages[..n], text);
      TextsOneMore(text, ChosenUpTo(text, n), n);
      assert pages[n].searchText == text(n);
    }
  }

  /** The time of a stored page: the latest of its items, or the thread's when none has one. */
  ghost predicate IsPageTime(threadUpdated: nat, items: seq<Item>, time: nat) {
    if exists item :: item in items && item.updated > 0 then
      (forall item :: item in items ==> item.updated <= time) && exists item :: item in items && item.updated == time
    else
      time == threadUpdated
  }

  /** The stored pages of a walk of n requests: request by request the marshalled items and their
      time, the search texts joined on the first page and nowhere else. */
  ghost predicate StoresWalk(spec: Spec, threadUpdated: nat, n: nat, pages: seq<Page>) {
    && |pages| == n
    && (forall i :: 0 <= i < n ==> pages[i].payload == spec.render(ItemsAt(spec, i)))
    && (forall i :: 0 <= i < n ==> IsPageTime(threadUpdated, ItemsAt(spec, i), pages[i].updated))
    && (forall i :: 0 < i < n ==> pages[i].searchText == "")
    && (n > 0 ==> IsSearchDocument(spec, n, pages[0].searchText))
  }

  lemma PageTimeMeans(threadUpdated: nat, items: seq<Item>)
    ensures IsPageTime(threadUpdated, items, PageTime(threadUpdated, items))
    ensures PageTime(threadUpdated, items) == threadUpdated || exists item :: item in items && item.updated == PageTime(threadUpdated, items)
  {
    LatestItemIsMaximum(items);
  }

  /** What a fetch loop has collected from its i-th request. */
  lemma ObservedPage(spec: Spec, threadUpdated: nat, n: nat, i: nat)
    requires i < n
    ensures |Observations(spec, threadUpdated, n)| == n
    ensures var page := Observations(spec, threadUpdated, n)[i];
            && page.payload == spec.render(ItemsAt(spec, i)) && page.searchText == spec.search(ItemsAt(spec, i))
            && IsPageTime(threadUpdated, ItemsAt(spec, i), page.updated) && page.updated <= SourceTime(spec, threadUpdated, n)
  {
    ObservationsFollowRequests(spec, threadUpdated, n, i);
    PageTimeMeans(threadUpdated, ItemsAt(spec, i));
    SourceTimeIsMaximum(spec, threadUpdated, n);
  }

  ghost predicate IsSearchDocument(spec: Spec, n: nat, doc: string) {
    exists requests, starts :: Chosen(SearchAt(spec), n, requests) && LaidOut(doc, TextsAt(SearchAt(spec), requests), starts)
  }

  lemma JoinedIsDocument(spec: Spec, threadUpdated: nat, n: nat)
    ensures IsSearchDocument(spec, n, JoinLines(SearchTexts(Observations(spec, threadUpdated, n))))
  {
    var pages, text := Observations(spec, threadUpdated, n), SearchAt(spec);
    if n > 0 {
      ObservedPage(spec, threadUpdated, n, 0);
    }
    forall i | 0 <= i < n
      ensures |pages| == n && pages[i].searchText == text(i)
    {
      ObservedPage(spec, threadUpdated, n, i);
    }
    SearchTextsChosen(pages, text);
    ChosenUpToIsChosen(text, n);
    var starts := JoinLaysOut(TextsAt(text, ChosenUpTo(text, n)));
  }

  lemma CollapsedPage(spec: Spec, threadUpdated: nat, n: nat, i: nat)
    requires i < n
    ensures var pages := Collapsed(Observations(spec, threadUpdated, n));
            && |pages| == n && pages[i].payload == spec.render(ItemsAt(spec, i))
            && IsPageTime(threadUpdated, ItemsAt(spec, i), pages[i].updated)
            && pages[i].updated <= SourceTime(spec, threadUpdated, n)
            && (if i == 0 then IsSearchDocument(spec, n, pages[i].searchText) else pages[i].searchText == "")
  {
    ObservedPage(spec, threadUpdated, n, i);
    JoinedIsDocument(spec, threadUpdated, n);
  }

  lemma CollapsedStoresWalk(spec: Spec, threadUpdated: nat, n: nat)
    ensures StoresWalk(spec, threadUpdated, n, Collapsed(Observations(spec, threadUpdated, n)))
    ensures forall p :: p in Collapsed(Observations(spec, threadUpdated, n)) ==> p.updated <= SourceTime(spec, threadUpdated, n)
  {
    var pages := Collapsed(Observations(spec, threadUpdated, n));
    if n > 0 {
      CollapsedPage(spec, threadUpdated, n, 0);
    }
    forall i | 0 <= i < n
      ensures |pages| == n && pages[i].payload == spec.render(ItemsAt(spec, i))
      ensures IsPageTime(threadUpdated, ItemsAt(spec, i), pages[i].updated) && (i > 0 ==> pages[i].searchText == "")
      ensures pages[i].updated <= SourceTime(spec, threadUpdated, n)
    {
      CollapsedPage(spec, threadUpdated, n, i);
    }
  }

  /** A write that takes its effect leaves the walk it was made from: a complete one its pages and
      its time, an incomplete one the pages that were there and its time. */
  lemma WriteLeavesWalk(spec: Spec, threadUpdated: nat, n: nat, complete: bool, before: Facet, after: Facet)
    requires before.Valid() && Took(before, after, WalkWrite(spec, threadUpdated, n, complete))
    requires SourceTime(spec, threadUpdated, n) > 0
    requires before.coverage.Some? ==> SourceTime(spec, threadUpdated, n) >= before.coverage.value.updated
    ensures after.coverage.Some? && after.coverage.value.complete == complete
    ensures after.coverage.value.updated == SourceTime(spec, threadUpdated, n)
    ensures if complete then StoresWalk(spec, threadUpdated, n, after.pages) else after.pages == before.pages
  {
    var w := WalkWrite(spec, threadUpdated, n, complete);
    CasEffect(before, w, before.Baseline());
    if complete {
      LatestBounds(w.updated, w.pages);
      CollapsedStoresWalk(spec, threadUpdated, n);
    }
  }

  /** Where the provider names the successor as the next page, request i is for page i + 1. */
  lemma {:induction false} SuccessorWalk(spec: Spec, live: nat -> bool, n: nat, i: nat)
    requires Walked(spec, live, n) && i < n
    requires forall p: nat :: spec.fetch(p).Listed? && spec.fetch(p).hasNext ==> spec.fetch(p).nextPage == p + 1
    ensures PageAt(spec, i) == i + 1 && spec.fetch(i + 1).Listed? && ItemsAt(spec, i) == spec.fetch(i + 1).items
  {
    if i > 0 {
      SuccessorWalk(spec, live, n, i - 1);
      assert HasNextAt(spec, i - 1);
    }
    assert Answered(spec, live, i);
  }

  /** The walk cannot go on after n requests, or the context is gone when it has ended. */
  ghost predicate WalkFails(spec: Spec, live: nat -> bool, maxPages: nat, n: nat) {
    Walked(spec, live, n) && n <= maxPages && (!live(n) || (n < maxPages && !Answered(spec, live, n)))
  }

  /** The facet took the write that some finished walk justifies. */
  ghost predicate TookWalk(spec: Spec, live: nat -> bool, maxPages: nat, threadUpdated: nat, before: Facet, after: Facet) {
    exists n, complete :: WalkEnds(spec, live, maxPages, n, complete) && Took(before, after, WalkWrite(spec, threadUpdated, n, complete))
  }

  /** A whole hydration with nobody else writing. It reports exactly the walk it made, whose write
      the facet then took; an error has its cause, and leaves the facet alone or, when the store
      failed after committing, with exactly the write a finished walk justifies. */
  method HydratePaginatedFacet(spec: Spec, live: nat -> bool, maxPages: nat, threadUpdated: nat, store: Store, cell: FacetCell)
    returns (r: Outcome)
    requires cell.facet.Valid()
    modifies cell
    ensures cell.facet.Valid()
    ensures r.Error? ==>
              cell.facet == old(cell.facet) || TookWalk(spec, live, maxPages, threadUpdated, old(cell.facet), cell.facet)
    ensures r.Error? ==>
              || !store.baselineRead || !Succeeds(store)
              || exists n :: WalkFails(spec, live, maxPages, n)
    ensures r.Hydrated? ==>
              && WalkEnds(spec, live, maxPages, r.pages, r.complete) && r.count == ItemCount(spec, r.pages)
              && Took(old(cell.facet), cell.facet, WalkWrite(spec, threadUpdated, r.pages, r.complete))
    ensures r.Hydrated? && SourceTime(spec, threadUpdated, r.pages) > 0
            && (old(cell.facet).coverage.Some? ==> SourceTime(spec, threadUpdated, r.pages) >= old(cell.facet).coverage.value.updated) ==>
              && cell.facet.coverage.Some? && cell.facet.coverage.value.complete == r.complete
              && cell.facet.coverage.value.updated == SourceTime(spec, threadUpdated, r.pages)
              && (if r.complete then StoresWalk(spec, threadUpdated, r.pages, cell.facet.pages)
                  else cell.facet.pages == old(cell.facet).pages)
  {
    if !store.baselineRead {
      return Error;
    }
    var expected := cell.facet.Baseline();
    var failed, observations, updated, total, pages, complete := FetchPages(spec, live, maxPages, threadUpdated);
    if failed || !live(pages) {
      assert WalkFails(spec, live, maxPages, pages);
      return Error;
    }
    var write := Incomplete(updated);
    if complete {
      var slots := new Page[|observations|](i requires 0 <= i < |observations| => observations[i]);
      assert slots[..] == observations;
      CollapseSearchText(slots);
      write := Complete(updated, slots[..]);
    }
    assert write == WalkWrite(spec, threadUpdated, pages, complete);
    var ok := WriteWithRetry(cell, write, expected, store);
    r := if ok then Hydrated(total, pages, complete) else Error;
    if ok && SourceTime(spec, threadUpdated, pages) > 0
       && (old(cell.facet).coverage.Some? ==> SourceTime(spec, threadUpdated, pages) >= old(cell.facet).coverage.value.updated) {
      WriteLeavesWalk(spec, threadUpdated, pages, complete, old(cell.facet), cell.facet);
    }
  }

  /** The source time of a walk dominates the thread's own time and every item it saw, and is
      one of them. */
  lemma {:induction false} SourceTimeIsMaximum(spec: Spec, threadUpdated: nat, n: nat)
    ensures SourceTime(spec, threadUpdated, n) >= threadUpdated
    ensures forall i, item :: 0 <= i < n && item in ItemsAt(spec, i) ==> item.updated <= SourceTime(spec, threadUpdated, n)
    ensures SourceTime(spec, threadUpdated, n) == threadUpdated ||
            exists i, item :: 0 <= i < n && item in ItemsAt(spec, i) && item.updated == SourceTime(spec, threadUpdated, n)
  {
    if n > 0 {
      SourceTimeIsMaximum(spec, threadUpdated, n - 1);
      LatestItemIsMaximum(ItemsAt(spec, n - 1));
    }
  }

  lemma {:induction false} LatestItemIsMaximum(items: seq<Item>)
    ensures forall item :: item in items ==> item.updated <= LatestItem(items)
    ensures LatestItem(items) == 0 || exists item :: item in items && item.updated == LatestItem(items)
  {
    if items != [] {
      var rest := items[..|items| - 1];
      LatestItemIsMaximum(rest);
      forall item | item in items
        ensures item.updated <= LatestItem(items)
      {
        assert item == items[|items| - 1] || item in rest;
      }
      assert LatestItem(items) == items[|items| - 1].updated || LatestItem(items) == LatestItem(rest);
    }
  }

  /** What a hydration stores: one page per request, in request order, holding the rendering
      and the latest time of the items that request returned. */
  lemma {:induction false} ObservationsFollowRequests(spec: Spec, threadUpdated: nat, n: nat, i: nat)
    requires i < n
    ensures |Observations(spec, threadUpdated, n)| == n
    ensures Observations(spec, threadUpdated, n)[i] == Observe(spec, threadUpdated, ItemsAt(spec, i))
    decreases n
  {
    if i < n - 1 {
      ObservationsFollowRequests(spec, threadUpdated, n - 1, i);
    } else if n > 1 {
      ObservationsFollowRequests(spec, threadUpdated, n - 1, 0);
    }
  }
}
