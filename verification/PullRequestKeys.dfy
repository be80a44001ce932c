/** Pull-request references as job results carry them, and the references recovered from them
    (internal/app/mcp_job_artifacts.go, mcp_thread_facets.go, mcp_authored_sync.go). */
module PullRequestKeys {
  import opened Options
  import opened Decimal

  const PULL_REQUEST := "pull_request"

  type Number = n: int | -MAX_INT - 1 <= n <= MAX_INT

  datatype ThreadRef = ThreadRef(owner: string, repo: string, kind: string, number: Number) {
    /** A pull request under a well-formed repository name. */
    predicate Proper() {
      owner != "" && '/' !in owner && repo != "" && kind == PULL_REQUEST && number > 0
    }
  }

  function Signed(n: Number): string {
    if n < 0 then "-" + Itoa(-(n as int)) else Itoa(n)
  }

  /** threadRefKey: owner/repo/kind#number. */
  function FullKey(ref: ThreadRef): string {
    ref.owner + "/" + ref.repo + "/" + (if ref.kind == "" then "any" else ref.kind) + "#" + Signed(ref.number)
  }

  /** The authored synchronisation's key: owner/repo#number. */
  function ShortKey(ref: ThreadRef): string {
    ref.owner + "/" + ref.repo + "#" + Signed(ref.number)
  }

  function IndexOf(s: string, c: char): int {
    if s == "" then -1
    else if s[0] == c then 0
    else
      var i := IndexOf(s[1..], c);
      if i < 0 then -1 else i + 1
  }

  function LastIndexOf(s: string, c: char): int {
    if s == "" then -1
    else if s[|s| - 1] == c then |s| - 1
    else LastIndexOf(s[..|s| - 1], c)
  }

  lemma {:induction false} FirstIndex(s: string, c: char)
    ensures var i := IndexOf(s, c);
            -1 <= i < |s| && (i < 0 ==> c !in s) && (i >= 0 ==> s[i] == c && c !in s[..i])
  {
    if s != "" && s[0] != c {
      FirstIndex(s[1..], c);
      var i := IndexOf(s[1..], c);
      if i >= 0 {
        assert s[..i + 1] == [s[0]] + s[1..][..i];
      }
    }
  }

  lemma {:induction false} LastIndexBounds(s: string, c: char)
    ensures -1 <= LastIndexOf(s, c) < |s|
  {
    if s != "" {
      LastIndexBounds(s[..|s| - 1], c);
    }
  }

  lemma {:induction false} LastIndex(before: string, c: char, after: string)
    requires c !in after
    ensures LastIndexOf(before + [c] + after, c) == |before|
  {
    var s := before + [c] + after;
    if after != "" {
      assert s[..|s| - 1] == before + [c] + after[..|after| - 1];
      LastIndex(before, c, after[..|after| - 1]);
    }
  }

  lemma {:induction false} FirstSlash(owner: string, rest: string)
    requires '/' !in owner
    ensures IndexOf(owner + "/" + rest, '/') == |owner|
  {
    var s := owner + "/" + rest;
    if owner != "" {
      assert s[1..] == owner[1..] + "/" + rest;
      FirstSlash(owner[1..], rest);
    }
  }

  predicate HasSuffix(s: string, suffix: string) {
    |suffix| <= |s| && s[|s| - |suffix|..] == suffix
  }

  function TrimSuffix(s: string, suffix: string): string {
    if HasSuffix(s, suffix) then s[..|s| - |suffix|] else s
  }

  /** One entry of portfolioResultRefs; None is an entry that is skipped. */
  function Parse(value: string): Option<ThreadRef> {
    LastIndexBounds(value, '#');
    var marker := LastIndexOf(value, '#');
    if marker <= 0 || marker == |value| - 1 then None
    else
      match Atoi(value[marker + 1..])
      case None => None
      case Some(number) => if number <= 0 || number > MAX_INT then None else ParseName(TrimSuffix(value[..marker], "/" + PULL_REQUEST), number)
  }

  function ParseName(fullName: string, number: Number): Option<ThreadRef> {
    FirstIndex(fullName, '/');
    var slash := IndexOf(fullName, '/');
    if slash <= 0 || slash == |fullName| - 1 then None
    else Some(ThreadRef(fullName[..slash], fullName[slash + 1..], PULL_REQUEST, number))
  }

  /** The references of a list of entries, in order, skipped entries left out. */
  function Refs(values: seq<string>): seq<ThreadRef> {
    if values == [] then []
    else
      Refs(values[..|values| - 1]) +
      match Parse(values[|values| - 1])
      case None => []
      case Some(ref) => [ref]
  }

  method PortfolioResultRefs(values: seq<string>) returns (refs: seq<ThreadRef>)
    ensures refs == Refs(values)
  {
    refs := [];
    for i := 0 to |values|
      invariant refs == Refs(values[..i])
    {
      assert values[..i + 1][..i] == values[..i];
      var ref := Parse(values[i]);
      if ref.Some? {
        refs := refs + [ref.value];
      }
    }
    assert values[..|values|] == values;
  }

  /** What the keys look like. */
  lemma KeyTexts(ref: ThreadRef, digits: string)
    requires ref.Proper() && digits == Itoa(ref.number)
    ensures FullKey(ref) == ref.owner + "/" + ref.repo + "/pull_request#" + digits
    ensures ShortKey(ref) == ref.owner + "/" + ref.repo + "#" + digits
    ensures Digits(digits) == Some(ref.number)
  {
    DigitsOfItoa(ref.number);
  }

  /** A key splits at its last number sign, whatever signs the name holds. */
  lemma ParseKey(name: string, number: Number)
    requires name != "" && number > 0
    ensures Parse(name + "#" + Signed(number)) == ParseName(TrimSuffix(name, "/" + PULL_REQUEST), number)
  {
    var value := name + "#" + Signed(number);
    DigitsOfItoa(number);
    AtoiOfItoa(number);
    LastIndex(name, '#', Itoa(number));
    assert value[..|name|] == name && value[|name| + 1..] == Itoa(number);
  }

  lemma ParseSlashed(owner: string, repo: string, number: Number)
    requires owner != "" && '/' !in owner && repo != ""
    ensures ParseName(owner + "/" + repo, number) == Some(ThreadRef(owner, repo, PULL_REQUEST, number))
  {
    FirstSlash(owner, repo);
    var s := owner + "/" + repo;
    assert s[..|owner|] == owner && s[|owner| + 1..] == repo;
  }

  /** Reading the full form gives back every proper reference, whatever its repository is
      called. */
  lemma FullFormRoundTrip(ref: ThreadRef)
    requires ref.Proper()
    ensures Parse(FullKey(ref)) == Some(ref)
  {
    var name := ref.owner + "/" + ref.repo;
    var suffix := "/" + PULL_REQUEST;
    assert FullKey(ref) == (name + suffix) + "#" + Signed(ref.number);
    ParseKey(name + suffix, ref.number);
    assert (name + suffix)[|name|..] == suffix && (name + suffix)[..|name|] == name;
    ParseSlashed(ref.owner, ref.repo, ref.number);
  }

  /** Reading the short form gives the reference back exactly when the repository's name does not
      look like the kind: a slash-free one is lost exactly when it is called pull_request. */
  lemma ShortFormRoundTripIff(ref: ThreadRef)
    requires ref.Proper()
    ensures Parse(ShortKey(ref)) == Some(ref) <==> !HasSuffix("/" + ref.repo, "/" + PULL_REQUEST)
    ensures '/' !in ref.repo ==> (HasSuffix("/" + ref.repo, "/" + PULL_REQUEST) <==> ref.repo == PULL_REQUEST)
  {
    var name, suffix := ref.owner + "/" + ref.repo, "/" + PULL_REQUEST;
    ParseKey(name, ref.number);
    assert name == ref.owner + ("/" + ref.repo);
    SuffixAfterOwner(ref.owner, "/" + ref.repo, suffix);
    if HasSuffix(name, suffix) {
      ShorterName(name[..|name| - |suffix|], ref);
    } else {
      ParseSlashed(ref.owner, ref.repo, ref.number);
    }
    if '/' !in ref.repo {
      OnlySlashedSuffix("/" + ref.repo, suffix);
      assert ("/" + ref.repo)[1..] == ref.repo && suffix[1..] == PULL_REQUEST;
    }
  }

  /** A suffix that begins with a slash lies in the part after a slash-free owner. */
  lemma SuffixAfterOwner(owner: string, rest: string, suffix: string)
    requires '/' !in owner && suffix != "" && suffix[0] == '/'
    ensures HasSuffix(owner + rest, suffix) <==> HasSuffix(rest, suffix)
  {
    var name := owner + rest;
    if |suffix| <= |rest| {
      assert name[|name| - |suffix|..] == rest[|rest| - |suffix|..];
    } else if |suffix| <= |name| {
      assert name[|name| - |suffix|..][0] == owner[|name| - |suffix|];
    }
  }

  /** A text whose only slash is its first character has itself as its only suffix with one. */
  lemma OnlySlashedSuffix(s: string, suffix: string)
    requires suffix != "" && suffix[0] == '/'
    requires forall i :: 0 < i < |s| ==> s[i] != '/'
    ensures HasSuffix(s, suffix) <==> s == suffix
  {
    var k := |s| - |suffix|;
    if HasSuffix(s, suffix) {
      assert s[k..][0] == s[k];
    }
  }

  /** A name that lost characters cannot give the whole reference back. */
  lemma ShorterName(name: string, ref: ThreadRef)
    requires |name| < |ref.owner| + 1 + |ref.repo|
    ensures ParseName(name, ref.number) != Some(ref)
  {
    FirstIndex(name, '/');
  }

  function FullKeys(refs: seq<ThreadRef>): seq<string> {
    seq(|refs|, i requires 0 <= i < |refs| => FullKey(refs[i]))
  }

  lemma {:induction false} RefsOfParsed(values: seq<string>, refs: seq<ThreadRef>)
    requires |values| == |refs| && forall i :: 0 <= i < |refs| ==> Parse(values[i]) == Some(refs[i])
    ensures Refs(values) == refs
  {
    if refs != [] {
      RefsOfParsed(values[..|refs| - 1], refs[..|refs| - 1]);
    }
  }

  /** A whole list of printed references reads back as itself. */
  lemma ListRoundTrip(refs: seq<ThreadRef>)
    requires forall ref :: ref in refs ==> ref.Proper()
    ensures Refs(FullKeys(refs)) == refs
  {
    forall i | 0 <= i < |refs|
      ensures Parse(FullKeys(refs)[i]) == Some(refs[i])
    {
      FullFormRoundTrip(refs[i]);
    }
    RefsOfParsed(FullKeys(refs), refs);
  }

  /** Whatever text a reference was read from, it is proper, and printing it gives a key that
      reads the same. */
  lemma ParsedIsProper(value: string)
    requires Parse(value).Some?
    ensures Parse(value).value.Proper() && Parse(FullKey(Parse(value).value)) == Parse(value)
  {
    LastIndexBounds(value, '#');
    var marker := LastIndexOf(value, '#');
    FirstIndex(TrimSuffix(value[..marker], "/" + PULL_REQUEST), '/');
    FullFormRoundTrip(Parse(value).value);
  }
}
