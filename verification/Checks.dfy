/** When a pull request's checks are finished and when they failed
    (internal/app/mcp_pr_check_wait.go). */
module Checks {
  import opened Options
  import opened Text

  datatype Check = Check(kind: string, name: string, status: string, conclusion: string)

  /** Upper-casing, exact on every character whose upper case is an ASCII letter; two of those
      lie outside ASCII: the dotless i and the long s. */
  function UpperChar(c: char): char {
    if 'a' <= c <= 'z' then c - 'a' + 'A'
    else if c == '\U{131}' then 'I'
    else if c == '\U{17F}' then 'S'
    else c
  }

  function Upper(s: string): (u: string) {
    seq(|s|, i requires 0 <= i < |s| => UpperChar(s[i]))
  }

  const PASSING: set<string> := {"SUCCESS", "NEUTRAL", "SKIPPED"}
  const FAILING: set<string> := {"FAILURE", "ERROR", "CANCELLED", "TIMED_OUT", "ACTION_REQUIRED", "STALE"}
  const STARTUP := "STARTUP_FAILURE"

  /** A conclusion decides when there is one; otherwise the status does. */
  predicate Terminal(c: Check) {
    if c.conclusion != "" then Upper(c.conclusion) in PASSING + FAILING + {STARTUP}
    else Upper(c.status) in PASSING + FAILING
  }

  predicate Failed(c: Check) {
    Upper(c.conclusion) in FAILING + {STARTUP} || Upper(c.status) in FAILING
  }

  /** The text that decides whether a check is finished. */
  function Deciding(c: Check): string {
    if c.conclusion != "" then c.conclusion else c.status
  }

  /** The texts that speak of a failure in either place. */
  const BROKEN: set<string> := {"FAILURE", "ERROR", "CANCELLED", "TIMED_OUT", "ACTION_REQUIRED", "STALE"}

  /** A check is finished and passed exactly when its deciding text is one of three and its status
      is no failure; it failed exactly when one of its texts is. */
  lemma VerdictTexts(c: Check)
    ensures Terminal(c) && !Failed(c) <==>
              Upper(Deciding(c)) in {"SUCCESS", "NEUTRAL", "SKIPPED"} && Upper(c.status) !in BROKEN
    ensures Failed(c) <==> Upper(c.conclusion) in BROKEN + {"STARTUP_FAILURE"} || Upper(c.status) in BROKEN
    ensures Terminal(c) <==>
              Upper(Deciding(c)) in {"SUCCESS", "NEUTRAL", "SKIPPED"} + BROKEN
              || (c.conclusion != "" && Upper(c.conclusion) == "STARTUP_FAILURE")
  {
  }

  /** Letter case does not matter: an upper-case text and its lower-case form read the same. */
  lemma CaseDoesNotMatter(s: string, lower: string)
    requires |lower| == |s|
    requires forall i :: 0 <= i < |s| ==> lower[i] == LowerChar(s[i]) && (s[i] == '_' || 'A' <= s[i] <= 'Z')
    ensures Upper(lower) == s && Upper(s) == s
  {
  }

  ghost predicate AllTerminal(items: seq<Check>) {
    items != [] && forall c :: c in items ==> Terminal(c)
  }

  ghost predicate HasFailed(items: seq<Check>) {
    exists c :: c in items && Terminal(c) && Failed(c)
  }

  method ChecksAllTerminal(items: seq<Check>) returns (r: bool)
    ensures r <==> AllTerminal(items)
  {
    if |items| == 0 {
      return false;
    }
    for i := 0 to |items|
      invariant forall c :: c in items[..i] ==> Terminal(c)
    {
      if !Terminal(items[i]) {
        return false;
      }
      assert items[..i + 1] == items[..i] + [items[i]];
    }
    assert items[..|items|] == items;
    r := true;
  }

  method ChecksHasFailed(items: seq<Check>) returns (r: bool)
    ensures r <==> HasFailed(items)
  {
    for i := 0 to |items|
      invariant forall c :: c in items[..i] ==> !(Terminal(c) && Failed(c))
    {
      if Terminal(items[i]) && Failed(items[i]) {
        return true;
      }
      assert items[..i + 1] == items[..i] + [items[i]];
    }
    assert items[..|items|] == items;
    r := false;
  }

  /** One pass decides both: finished means every check is terminal or, failing fast, some
      terminal one failed; the failure flag is only meaningful once finished. */
  method ChecksTerminal(items: seq<Check>, failFast: bool) returns (terminal: bool, failed: bool)
    ensures terminal <==> AllTerminal(items) || (failFast && HasFailed(items))
    ensures failed <==> terminal && HasFailed(items)
  {
    if |items| == 0 {
      return false, false;
    }
    var pending := false;
    failed := false;
    for i := 0 to |items|
      invariant !pending <==> forall c :: c in items[..i] ==> Terminal(c)
      invariant failed <==> exists c :: c in items[..i] && Terminal(c) && Failed(c)
    {
      var item := items[i];
      assert items[..i + 1] == items[..i] + [item];
      if !Terminal(item) {
        pending := true;
      } else if Failed(item) {
        failed := true;
      }
    }
    assert items[..|items|] == items;
    if failFast && failed {
      return true, true;
    }
    if pending {
      return false, false;
    }
    terminal := true;
  }

  // ---------------------------------------------------------------------------
  // Transitions: the signature of a check set is treated as injective, so it is the set
  // itself. A watch records each change of signature up to a cap.
  // ---------------------------------------------------------------------------

  type Signature = seq<Check>

  const MAX_TRANSITIONS := 64

  /** The history without immediate repetitions. */
  function Changes(history: seq<Signature>): seq<Signature> {
    if history == [] then []
    else
      var before, x := Changes(history[..|history| - 1]), history[|history| - 1];
      if before != [] && before[|before| - 1] == x then before else before + [x]
  }

  lemma {:induction false} ChangesShape(history: seq<Signature>)
    ensures history != [] ==> Changes(history) != [] && Changes(history)[|Changes(history)| - 1] == history[|history| - 1]
    ensures history == [] ==> Changes(history) == []
    ensures forall i :: 0 < i < |Changes(history)| ==> Changes(history)[i - 1] != Changes(history)[i]
    ensures |Changes(history)| <= |history|
  {
    if history != [] {
      ChangesShape(history[..|history| - 1]);
    }
  }

  function Capped(changes: seq<Signature>): seq<Signature> {
    if |changes| > MAX_TRANSITIONS then changes[..MAX_TRANSITIONS] else changes
  }

  /** The transitions of a watch and its last signature. */
  class Transitions {
    var recorded: seq<Signature>
    var truncated: bool
    var last: Option<Signature>
    ghost var history: seq<Signature>

    ghost predicate Valid()
      reads this
    {
      && recorded == Capped(Changes(history))
      && (truncated <==> |Changes(history)| > MAX_TRANSITIONS)
      && last == (if history == [] then None else Some(history[|history| - 1]))
    }

    constructor ()
      ensures Valid() && history == []
    {
      recorded, truncated, last, history := [], false, None, [];
    }

    /** The bookkeeping for one complete observation: what is recorded is the capped list of
        changes of everything observed, and the flag is set exactly when a change was dropped. */
    method Observe(signature: Signature)
      requires Valid()
      modifies this
      ensures Valid() && history == old(history) + [signature]
    {
      ChangesShape(history);
      assert (history + [signature])[..|history|] == history;
      if last != Some(signature) && |recorded| < MAX_TRANSITIONS {
        recorded := recorded + [signature];
        last := Some(signature);
      } else if last != Some(signature) {
        truncated := true;
        last := Some(signature);
      }
      history := history + [signature];
    }
  }

  /** At most 64 transitions, adjacent ones different, and nothing is missing unless flagged. */
  lemma RecordedShape(history: seq<Signature>)
    ensures |Capped(Changes(history))| <= 64
    ensures forall i :: 0 < i < |Capped(Changes(history))| ==> Capped(Changes(history))[i - 1] != Capped(Changes(history))[i]
    ensures |Changes(history)| <= MAX_TRANSITIONS <==> Capped(Changes(history)) == Changes(history)
  {
    ChangesShape(history);
  }
}
