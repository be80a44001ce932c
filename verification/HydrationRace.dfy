/** Concurrent hydrators of one facet (internal/app/hydration.go and mcp_pr_health.go): each
    captures the coverage sequence, fetches without any lock, then writes with compare-and-swap
    inside a busy-retry loop. */
module HydrationRace {
  import opened FacetStore

  type Hydrator = nat

  /** `mark` is history: how many writes had moved the row when the baseline was captured. */
  datatype Pc =
    | Idle
    | Fetching(baseline: nat, mark: nat)
    | Writing(baseline: nat, mark: nat, write: Write, attempts: nat)
    | Finished

  /** One write that moved the coverage row. */
  datatype Entry = Entry(writer: Hydrator, mark: nat, baseline: nat, sequence: nat, write: Write)

  datatype State = State(facet: Facet, pcs: map<Hydrator, Pc>, log: seq<Entry>)

  const INITIAL := State(NEW_FACET, map[], [])

  const MAX_ATTEMPTS := 4

  /** A write attempt is answered, is turned away busy, or is reported busy after it committed. A
      failure reported after the commit ends like an answer, one before it like giving up. */
  datatype Attempt = Answered | Busy | BusyButCommitted

  datatype Step =
    | CaptureBaseline(h: Hydrator)
    | FetchDone(h: Hydrator, write: Write)
    | TryWrite(h: Hydrator, outcome: Attempt)
    | GiveUp(h: Hydrator)                 // fetch error, cancellation or crash
    | OtherFacetWrite                     // consumes a sequence number

  function PcOf(s: State, h: Hydrator): Pc {
    if h in s.pcs then s.pcs[h] else Idle
  }

  predicate Enabled(s: State, step: Step) {
    match step
    case CaptureBaseline(h) => PcOf(s, h).Idle?
    case FetchDone(h, _) => PcOf(s, h).Fetching?
    case TryWrite(h, _) => PcOf(s, h).Writing?
    case GiveUp(h) => !PcOf(s, h).Idle?
    case OtherFacetWrite => true
  }

  /** The store transaction of hydrator `h`, with the history it leaves. */
  function Commit(s: State, h: Hydrator): State
    requires PcOf(s, h).Writing?
  {
    var pc := PcOf(s, h);
    var facet := Cas(s.facet, pc.write, pc.baseline).0;
    var log := if Moves(s.facet, pc.write, pc.baseline)
               then s.log + [Entry(h, pc.mark, pc.baseline, facet.Baseline(), pc.write)] else s.log;
    s.(facet := facet, log := log)
  }

  function Retry(pc: Pc): Pc
    requires pc.Writing?
  {
    if pc.attempts + 1 < MAX_ATTEMPTS then pc.(attempts := pc.attempts + 1) else Finished
  }

  /** A write turned away busy is repeated three times, with the same baseline and data. */
  lemma BusyIsRepeated(pc: Pc)
    requires pc.Writing?
    ensures pc.attempts < 3 ==> Retry(pc) == Writing(pc.baseline, pc.mark, pc.write, pc.attempts + 1)
    ensures pc.attempts >= 3 ==> Retry(pc) == Finished
  {
  }

  function Next(s: State, step: Step): State
    requires Enabled(s, step)
  {
    match step
    case CaptureBaseline(h) => s.(pcs := s.pcs[h := Fetching(s.facet.Baseline(), |s.log|)])
    case FetchDone(h, write) =>
      s.(pcs := s.pcs[h := Writing(PcOf(s, h).baseline, PcOf(s, h).mark, write, 0)])
    case TryWrite(h, Answered) => Commit(s, h).(pcs := s.pcs[h := Finished])
    case TryWrite(h, Busy) => s.(pcs := s.pcs[h := Retry(PcOf(s, h))])
    case TryWrite(h, BusyButCommitted) => Commit(s, h).(pcs := s.pcs[h := Retry(PcOf(s, h))])
    case GiveUp(h) => s.(pcs := s.pcs[h := Finished])
    case OtherFacetWrite => s.(facet := s.facet.(lastSequence := s.facet.lastSequence + 1))
  }

  ghost predicate IsRun(states: seq<State>, steps: seq<Step>) {
    && |states| == |steps| + 1
    && states[0] == INITIAL
    && forall i :: 0 <= i < |steps| ==> Enabled(states[i], steps[i]) && states[i + 1] == Next(states[i], steps[i])
  }

  /** The sequence on the row after the first `n` moving writes. */
  function SequenceAfter(log: seq<Entry>, n: nat): nat
    requires n <= |log|
  {
    if n == 0 then 0 else log[n - 1].sequence
  }

  /** The pages of the last complete write, which is what readers are entitled to see. */
  function LastComplete(log: seq<Entry>): seq<Page> {
    if log == [] then []
    else if log[|log| - 1].write.Complete? then log[|log| - 1].write.pages
    else LastComplete(log[..|log| - 1])
  }

  /** Each write took the row from exactly the state its writer had captured: its baseline is
      the previous write's sequence, and it captured it after the previous write. */
  ghost predicate EntryOk(log: seq<Entry>, i: nat)
    requires i < |log|
  {
    log[i].mark == i && log[i].baseline == SequenceAfter(log, i) < log[i].sequence
  }

  ghost predicate Chained(log: seq<Entry>) {
    forall i :: 0 <= i < |log| ==> EntryOk(log, i)
  }

  ghost predicate Wrote(log: seq<Entry>, h: Hydrator, i: nat) {
    i < |log| && log[i].writer == h
  }

  ghost predicate PcOk(s: State, h: Hydrator) {
    match PcOf(s, h)
    case Idle => forall i :: !Wrote(s.log, h, i)
    case Fetching(baseline, mark) =>
      mark <= |s.log| && baseline == SequenceAfter(s.log, mark) && forall i :: !Wrote(s.log, h, i)
    case Writing(baseline, mark, _, _) =>
      mark <= |s.log| && baseline == SequenceAfter(s.log, mark) && forall i :: Wrote(s.log, h, i) ==> i == mark
    case Finished => true
  }

  ghost predicate OnceEach(log: seq<Entry>) {
    forall h, i, j :: Wrote(log, h, i) && Wrote(log, h, j) ==> i == j
  }

  ghost predicate Inv(s: State) {
    && s.facet.Valid()
    && s.facet.Baseline() == SequenceAfter(s.log, |s.log|)
    && s.facet.pages == LastComplete(s.log)
    && (s.facet.coverage.Some? ==> s.log != [] && s.facet.coverage.value.complete == s.log[|s.log| - 1].write.Complete?)
    && Chained(s.log)
    && OnceEach(s.log)
    && forall h :: PcOk(s, h)
  }

  lemma {:induction false} SequencesGrow(log: seq<Entry>, m: nat, n: nat)
    requires Chained(log) && m <= n <= |log|
    ensures SequenceAfter(log, m) <= SequenceAfter(log, n)
    ensures m < n ==> SequenceAfter(log, m) < SequenceAfter(log, n)
  {
    if m < n {
      SequencesGrow(log, m, n - 1);
      assert EntryOk(log, n - 1);
    }
  }

  /** Appending a write made from the current sequence keeps the chain. */
  lemma ChainGrows(log: seq<Entry>, e: Entry)
    requires Chained(log) && e.mark == |log| && e.baseline == SequenceAfter(log, |log|) < e.sequence
    ensures Chained(log + [e]) && LastComplete(log + [e]) == if e.write.Complete? then e.write.pages else LastComplete(log)
    ensures forall n :: 0 <= n <= |log| ==> SequenceAfter(log + [e], n) == SequenceAfter(log, n)
    ensures forall h, i :: Wrote(log + [e], h, i) <==> Wrote(log, h, i) || (i == |log| && e.writer == h)
  {
    assert (log + [e])[..|log|] == log;
    forall i | 0 <= i < |log + [e]|
      ensures EntryOk(log + [e], i)
    {
      assert i < |log| ==> EntryOk(log, i);
    }
  }

  /** A transaction that moves the row can only come from a writer whose baseline is current,
      so nothing moved since it captured it. */
  lemma MovingCommit(s: State, h: Hydrator)
    requires Inv(s) && PcOf(s, h).Writing?
    ensures var pc := PcOf(s, h);
            Moves(s.facet, pc.write, pc.baseline) ==> pc.mark == |s.log| && forall i :: !Wrote(s.log, h, i)
  {
    assert PcOk(s, h);
    SequencesGrow(s.log, PcOf(s, h).mark, |s.log|);
    CasEffect(s.facet, PcOf(s, h).write, PcOf(s, h).baseline);
  }

  lemma CommitKeepsInv(s: State, h: Hydrator, pc': Pc)
    requires Inv(s) && PcOf(s, h).Writing?
    requires pc'.Finished? || (pc'.Writing? && pc'.mark == PcOf(s, h).mark && pc'.baseline == PcOf(s, h).baseline)
    ensures Inv(Commit(s, h).(pcs := s.pcs[h := pc']))
  {
    var pc := PcOf(s, h);
    var s' := Commit(s, h).(pcs := s.pcs[h := pc']);
    CasEffect(s.facet, pc.write, pc.baseline);
    MovingCommit(s, h);
    if Moves(s.facet, pc.write, pc.baseline) {
      ChainGrows(s.log, Entry(h, pc.mark, pc.baseline, s'.facet.Baseline(), pc.write));
    }
    forall x
      ensures PcOk(s', x)
    {
      assert PcOk(s, x) && PcOk(s, h);
    }
  }

  lemma StepKeepsInv(s: State, step: Step)
    requires Inv(s) && Enabled(s, step)
    ensures Inv(Next(s, step))
  {
    if step.TryWrite? && !step.outcome.Busy? {
      CommitKeepsInv(s, step.h, if step.outcome.Answered? then Finished else Retry(PcOf(s, step.h)));
    } else {
      forall x
        ensures PcOk(Next(s, step), x)
      {
        assert PcOk(s, x);
      }
    }
  }

  lemma {:induction false} RunKeepsInv(states: seq<State>, steps: seq<Step>, i: nat)
    requires IsRun(states, steps) && i < |states|
    ensures Inv(states[i])
  {
    if i > 0 {
      RunKeepsInv(states, steps, i - 1);
      StepKeepsInv(states[i - 1], steps[i - 1]);
    }
  }

  /** No lost update, in any interleaving: the writes that move the row form one chain, each
      starting from the sequence the previous one left, and between a writer's baseline and
      its write no other write moved the row. A retried write moves it at most once. */
  lemma NoLostUpdate(states: seq<State>, steps: seq<Step>, i: nat)
    requires IsRun(states, steps) && i < |states|
    ensures Chained(states[i].log) && OnceEach(states[i].log)
    ensures states[i].facet.Baseline() == SequenceAfter(states[i].log, |states[i].log|)
  {
    RunKeepsInv(states, steps, i);
  }

  /** The stored pages are always those of the last complete fetch whose write moved the row;
      an interrupted or incomplete fetch changes at most the coverage row's own fields. */
  lemma CompletePayloadSurvives(states: seq<State>, steps: seq<Step>, i: nat)
    requires IsRun(states, steps) && i < |steps|
    ensures states[i].facet.pages == LastComplete(states[i].log)
    ensures states[i + 1].facet.pages != states[i].facet.pages ==>
              steps[i].TryWrite? && PcOf(states[i], steps[i].h).Writing? && PcOf(states[i], steps[i].h).write.Complete?
              && states[i + 1].facet.pages == PcOf(states[i], steps[i].h).write.pages
  {
    RunKeepsInv(states, steps, i);
    if steps[i].TryWrite? {
      var pc := PcOf(states[i], steps[i].h);
      CasEffect(states[i].facet, pc.write, pc.baseline);
    }
  }

  /** The write that moves the row is the one with a current baseline: a hydrator overtaken
      since its capture changes neither row nor pages, however often it retries. */
  lemma OvertakenWriterRefused(states: seq<State>, steps: seq<Step>, i: nat)
    requires IsRun(states, steps) && i < |steps| && steps[i].TryWrite?
    requires PcOf(states[i], steps[i].h).mark < |states[i].log|
    ensures states[i + 1].facet == states[i].facet && states[i + 1].log == states[i].log
  {
    RunKeepsInv(states, steps, i);
    var s, pc := states[i], PcOf(states[i], steps[i].h);
    assert PcOk(s, steps[i].h);
    SequencesGrow(s.log, pc.mark, |s.log|);
    CasEffect(s.facet, pc.write, pc.baseline);
  }
}
