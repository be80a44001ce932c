/** Comparing a draft with its published text (comparePublishedText, firstDifferingLine and the
    verdict of VerifyPublishedDraft in internal/app/draft_verification.go). */
module DraftText {
  import opened Options

  const CR := '\r'
  const LF := '\n'

  /** strings.ReplaceAll for a one-character replacement. */
  function ReplaceCrLf(s: string): string {
    if |s| < 2 then s
    else if s[0] == CR && s[1] == LF then [LF] + ReplaceCrLf(s[2..])
    else [s[0]] + ReplaceCrLf(s[1..])
  }

  function ReplaceCr(s: string): string {
    if s == "" then "" else [if s[0] == CR then LF else s[0]] + ReplaceCr(s[1..])
  }

  function Normalise(s: string): string {
    ReplaceCr(ReplaceCrLf(s))
  }

  /** One pass over the text: CR LF, a lone CR and a lone LF each end a line. */
  function OnePass(s: string): string {
    if s == "" then ""
    else if s[0] == CR then [LF] + OnePass(if |s| > 1 && s[1] == LF then s[2..] else s[1..])
    else [s[0]] + OnePass(s[1..])
  }

  lemma {:induction false} TwoPassesAreOne(s: string)
    ensures Normalise(s) == OnePass(s)
    decreases |s|
  {
    if |s| == 1 {
      assert s[1..] == "" && ReplaceCr("") == "" && OnePass("") == "";
      assert ReplaceCrLf(s) == s;
    } else if |s| >= 2 {
      var n := if s[0] == CR && s[1] == LF then 2 else 1;
      TwoPassesAreOne(s[n..]);
      var first := if n == 2 then LF else s[0];
      assert ([first] + ReplaceCrLf(s[n..]))[1..] == ReplaceCrLf(s[n..]);
    }
  }

  lemma {:induction false} NoCrLeft(s: string)
    ensures CR !in OnePass(s)
    decreases |s|
  {
    if s != "" {
      NoCrLeft(if s[0] == CR && |s| > 1 && s[1] == LF then s[2..] else s[1..]);
    }
  }

  lemma {:induction false} NoCrUnchanged(s: string)
    requires CR !in s
    ensures OnePass(s) == s
  {
    if s != "" {
      NoCrUnchanged(s[1..]);
    }
  }

  /** Normalised text holds no CR, is its own normal form, and text without CR is normal. */
  lemma NormaliseIsIdempotent(s: string)
    ensures CR !in Normalise(s) && Normalise(Normalise(s)) == Normalise(s)
    ensures CR !in s <==> Normalise(s) == s
  {
    TwoPassesAreOne(s);
    NoCrLeft(s);
    NoCrUnchanged(OnePass(s));
    TwoPassesAreOne(OnePass(s));
    if CR !in s {
      NoCrUnchanged(s);
    }
  }

  datatype Comparison = ExactMatch | NormalisedOnly | Mismatch

  function Compare(left: string, right: string): Comparison {
    if left == right then ExactMatch
    else if Normalise(left) == Normalise(right) then NormalisedOnly
    else Mismatch
  }

  /** "Not a mismatch" is an equivalence whose classes are the normal forms: a text matches its
      normal form, and two texts match exactly when they match a common text. */
  lemma MatchIsEquivalence(a: string, b: string, c: string)
    ensures !Compare(a, a).Mismatch? && !Compare(a, Normalise(a)).Mismatch?
    ensures Compare(a, b) == Compare(b, a)
    ensures !Compare(a, b).Mismatch? && !Compare(b, c).Mismatch? ==> !Compare(a, c).Mismatch?
    ensures CR !in a && CR !in b ==> !Compare(a, b).NormalisedOnly?
  {
    NormaliseIsIdempotent(a);
    NormaliseIsIdempotent(b);
  }

  // ---------------------------------------------------------------------------
  // The first differing line
  // ---------------------------------------------------------------------------

  /** The lines of a text with one more character in front. */
  function Push(c: char, lines: seq<string>): seq<string>
    requires lines != []
  {
    if c == LF then [""] + lines else [[c] + lines[0]] + lines[1..]
  }

  /** strings.Split at line feeds. */
  function Split(s: string): (lines: seq<string>)
    ensures lines != []
  {
    if s == "" then [""] else Push(s[0], Split(s[1..]))
  }

  function Join(lines: seq<string>): string {
    if lines == [] then "" else if |lines| == 1 then lines[0] else lines[0] + [LF] + Join(lines[1..])
  }

  /** Joining the lines of a text gives it back, so texts with the same lines are the same. */
  lemma {:induction false} JoinSplit(s: string)
    ensures Join(Split(s)) == s
  {
    if s != "" {
      JoinSplit(s[1..]);
      JoinPush(s[0], Split(s[1..]));
    }
  }

  lemma JoinPush(c: char, lines: seq<string>)
    requires lines != []
    ensures Join(Push(c, lines)) == [c] + Join(lines)
  {
    var pushed := Push(c, lines);
    if c == LF {
      assert pushed[0] == "" && pushed[1..] == lines;
    } else {
      assert pushed[0] == [c] + lines[0] && pushed[1..] == lines[1..];
    }
  }

  lemma PushConcat(c: char, front: seq<string>, back: seq<string>)
    requires front != []
    ensures Push(c, front + back) == Push(c, front) + back
  {
    assert (front + back)[0] == front[0] && (front + back)[1..] == front[1..] + back;
  }

  lemma {:induction false} LinesHoldNoLineFeed(s: string, i: nat)
    requires i < |Split(s)|
    ensures LF !in Split(s)[i]
  {
    if s != "" {
      if s[0] == LF {
        if i > 0 {
          LinesHoldNoLineFeed(s[1..], i - 1);
        }
      } else {
        LinesHoldNoLineFeed(s[1..], i);
      }
    }
  }

  /** Line n (from 1) is the first that differs or is missing on one side. */
  ghost predicate FirstDifference(a: seq<string>, b: seq<string>, n: nat) {
    && 1 <= n && n - 1 <= |a| && n - 1 <= |b| && a[..n - 1] == b[..n - 1]
    && (n <= |a| || n <= |b|)
    && (n <= |a| && n <= |b| ==> a[n - 1] != b[n - 1])
  }

  method FirstDifferingLine(left: string, right: string) returns (n: nat)
    ensures n == 0 <==> left == right
    ensures n > 0 ==> FirstDifference(Split(left), Split(right), n)
  {
    JoinSplit(left);
    JoinSplit(right);
    n := FirstDifferingEntry(Split(left), Split(right));
  }

  method FirstDifferingEntry(a: seq<string>, b: seq<string>) returns (n: nat)
    ensures n == 0 <==> a == b
    ensures n > 0 ==> FirstDifference(a, b, n)
  {
    var i := 0;
    while i < |a| && i < |b|
      invariant i <= |a| && i <= |b| && a[..i] == b[..i]
    {
      if a[i] != b[i] {
        return i + 1;
      }
      i := i + 1;
    }
    if |a| != |b| {
      return if |a| < |b| then |a| + 1 else |b| + 1;
    }
    assert a == a[..i] && b == b[..i];
    n := 0;
  }

  /** There is only one such line. */
  lemma FirstDifferenceUnique(a: seq<string>, b: seq<string>, m: nat, n: nat)
    requires FirstDifference(a, b, m) && FirstDifference(a, b, n)
    ensures m == n
  {
  }

  // ---------------------------------------------------------------------------
  // The reported line and the normalised texts
  // ---------------------------------------------------------------------------

  ghost predicate AreLines(lines: seq<string>) {
    lines != [] && forall i :: 0 <= i < |lines| ==> LF !in lines[i]
  }

  lemma {:induction false} SplitJoin(lines: seq<string>)
    requires AreLines(lines)
    ensures Split(Join(lines)) == lines
  {
    SplitLine(lines[0]);
    if |lines| > 1 {
      SplitJoin(lines[1..]);
      SplitConcat(lines[0], Join(lines[1..]));
      assert lines == [lines[0]] + lines[1..];
    }
  }

  lemma {:induction false} SplitLine(line: string)
    requires LF !in line
    ensures Split(line) == [line]
  {
    if line != "" {
      SplitLine(line[1..]);
      assert line == [line[0]] + line[1..];
    }
  }

  lemma {:induction false} SplitConcat(x: string, y: string)
    ensures Split(x + [LF] + y) == Split(x) + Split(y)
  {
    if x == "" {
      assert x + [LF] + y == [LF] + y;
    } else {
      SplitConcat(x[1..], y);
      PushConcat(x[0], Split(x[1..]), Split(y));
      assert (x + [LF] + y)[1..] == x[1..] + [LF] + y;
    }
  }

  /** What splitting computes: the only list of lines without line feeds that joins to the text. */
  lemma SplitIff(s: string, lines: seq<string>)
    ensures Split(s) == lines <==> AreLines(lines) && Join(lines) == s
  {
    if AreLines(lines) && Join(lines) == s {
      SplitJoin(lines);
    }
    JoinSplit(s);
    forall i | 0 <= i < |Split(s)|
      ensures LF !in Split(s)[i]
    {
      LinesHoldNoLineFeed(s, i);
    }
  }

  /** The lines of the normalised text. */
  function NormalLines(s: string): seq<string> {
    Split(Normalise(s))
  }

  /** A line without the CR that would end it together with a line feed. */
  function Bare(line: string): string {
    if line != "" && line[|line| - 1] == CR then line[..|line| - 1] else line
  }

  /** The line up to its first CR. */
  function Head(line: string): string {
    if line == "" || line[0] == CR then "" else [line[0]] + Head(line[1..])
  }

  /** Normalising does not split the line. */
  predicate Plain(line: string) {
    CR !in Bare(line)
  }

  lemma BareTail(line: string)
    requires LF !in line && line != "" && line != [CR]
    ensures Bare(line) != "" && Bare(line)[0] == line[0] && Bare(line)[1..] == Bare(line[1..])
    ensures LF !in Bare(line)
  {
  }

  /** A line that a line feed ends is normalised on its own. */
  lemma {:induction false} OnePassLine(line: string, rest: string)
    requires LF !in line
    ensures OnePass(line + [LF] + rest) == OnePass(Bare(line)) + [LF] + OnePass(rest)
  {
    var s := line + [LF] + rest;
    if line == "" {
      assert s == [LF] + rest && s[1..] == rest;
    } else if line == [CR] {
      assert s[2..] == rest;
    } else {
      assert s[0] == line[0] && s[1..] == line[1..] + [LF] + rest;
      OnePassLine(line[1..], rest);
      BareTail(line);
      var c := if line[0] == CR then LF else line[0];
      assert OnePass(s) == [c] + OnePass(s[1..]);
      assert OnePass(Bare(line)) == [c] + OnePass(Bare(line[1..]));
      assert [c] + (OnePass(Bare(line[1..])) + [LF] + OnePass(rest)) == [c] + OnePass(Bare(line[1..])) + [LF] + OnePass(rest);
    }
  }

  lemma TerminatedLine(line: string, rest: string)
    requires LF !in line
    ensures NormalLines(line + [LF] + rest) == NormalLines(Bare(line)) + NormalLines(rest)
  {
    TwoPassesAreOne(line + [LF] + rest);
    TwoPassesAreOne(Bare(line));
    TwoPassesAreOne(rest);
    OnePassLine(line, rest);
    SplitConcat(OnePass(Bare(line)), OnePass(rest));
  }

  /** A line by itself: its first piece is its head, and there is no other exactly without CR. */
  lemma {:induction false} LinePieces(line: string)
    requires LF !in line
    ensures NormalLines(line)[0] == Head(line) && (|NormalLines(line)| == 1 <==> CR !in line)
    ensures CR !in line ==> Head(line) == line
  {
    TwoPassesAreOne(line);
    if line != "" {
      LinePieces(line[1..]);
      TwoPassesAreOne(line[1..]);
      assert OnePass(line)[1..] == OnePass(line[1..]);
    }
  }

  lemma {:induction false} TrailingCr(line: string)
    requires LF !in line
    ensures NormalLines(line + [CR]) == NormalLines(line) + [""]
  {
    TwoPassesAreOne(line + [CR]);
    TwoPassesAreOne(line);
    OnePassTrailing(line);
    SplitConcat(OnePass(line), "");
    assert OnePass(line) + [LF] + "" == OnePass(line) + [LF];
  }

  lemma {:induction false} OnePassTrailing(line: string)
    requires LF !in line
    ensures OnePass(line + [CR]) == OnePass(line) + [LF]
  {
    var s := line + [CR];
    if line == "" {
      assert s[1..] == "";
    } else {
      OnePassTrailing(line[1..]);
      assert s[1..] == line[1..] + [CR];
    }
  }

  lemma {:induction false} HeadOfBare(line: string)
    ensures Head(Bare(line)) == Head(line)
  {
    if |line| > 1 && line[0] != CR {
      HeadOfBare(line[1..]);
      assert Bare(line)[1..] == Bare(line[1..]);
    }
  }

  /** What the normalised text has where line n of the raw text begins, if nothing before it is
      split: its head, an empty line after a closing CR, or nothing. */
  function LineHead(lines: seq<string>, n: nat): Option<string>
    requires 1 <= n <= |lines| + 1 && lines != []
  {
    if n <= |lines| then Some(Head(lines[n - 1]))
    else if Bare(lines[n - 2]) != lines[n - 2] then Some("")
    else None
  }

  lemma FirstNormalLine(lines: seq<string>)
    requires AreLines(lines)
    ensures NormalLines(Join(lines))[0] == Head(lines[0])
  {
    if |lines| == 1 {
      LinePieces(lines[0]);
    } else {
      TerminatedLine(lines[0], Join(lines[1..]));
      LinePieces(Bare(lines[0]));
      HeadOfBare(lines[0]);
    }
  }

  /** A common front moves the first difference. */
  lemma DifferenceAfter(front: seq<string>, x: seq<string>, y: seq<string>, n: nat)
    ensures FirstDifference(front + x, front + y, n) <==> n > |front| && FirstDifference(x, y, n - |front|)
  {
    var a, b := front + x, front + y;
    if n > |front| {
      var m := n - |front|;
      if m - 1 <= |x| && m - 1 <= |y| {
        assert a[..n - 1] == front + x[..m - 1] && b[..n - 1] == front + y[..m - 1];
        assert a[..n - 1][|front|..] == x[..m - 1] && b[..n - 1][|front|..] == y[..m - 1];
      }
    }
  }

  /** Both texts go on after their common first line. */
  lemma CommonLine(a: seq<string>, b: seq<string>, n: nat)
    requires AreLines(a) && AreLines(b) && |a| > 1 && |b| > 1 && n > 1 && FirstDifference(a, b, n)
    ensures AreLines(a[1..]) && AreLines(b[1..]) && FirstDifference(a[1..], b[1..], n - 1)
    ensures var p := NormalLines(Bare(a[0]));
            && |p| >= 1 && (|p| == 1 <==> Plain(a[0])) && a[0] == b[0]
            && NormalLines(Join(a)) == p + NormalLines(Join(a[1..]))
            && NormalLines(Join(b)) == p + NormalLines(Join(b[1..]))
  {
    assert a[0] == a[..n - 1][0] == b[..n - 1][0] == b[0];
    assert a == [a[0]] + a[1..] && b == [a[0]] + b[1..];
    DifferenceAfter([a[0]], a[1..], b[1..], n);
    TerminatedLine(a[0], Join(a[1..]));
    TerminatedLine(b[0], Join(b[1..]));
    LinePieces(Bare(a[0]));
  }

  /** One text ends with the common first line, the other goes on. */
  lemma LastCommonLine(a: seq<string>, b: seq<string>)
    requires AreLines(a) && AreLines(b) && |a| == 1 && |b| > 1 && a[0] == b[0]
    ensures var p := NormalLines(Bare(a[0]));
            && |p| >= 1 && (|p| == 1 <==> Plain(a[0]))
            && NormalLines(Join(a)) == p + (if Bare(a[0]) != a[0] then [""] else [])
            && NormalLines(Join(b)) == p + NormalLines(Join(b[1..]))
            && NormalLines(Join(b[1..]))[0] == Head(b[1])
  {
    TerminatedLine(b[0], Join(b[1..]));
    FirstNormalLine(b[1..]);
    LinePieces(Bare(a[0]));
    if Bare(a[0]) != a[0] {
      TrailingCr(Bare(a[0]));
      assert a[0] == Bare(a[0]) + [CR];
    }
  }

  ghost predicate Undivided(lines: seq<string>, n: nat) {
    forall m :: 0 <= m < n <= |lines| ==> Plain(lines[m])
  }

  ghost predicate SameLine(a: seq<string>, b: seq<string>, n: nat)
    requires FirstDifference(a, b, n) && AreLines(a) && AreLines(b)
  {
    Undivided(a, n - 1) && LineHead(a, n) != LineHead(b, n)
  }

  lemma EndsFirst(a: seq<string>, b: seq<string>)
    requires AreLines(a) && AreLines(b) && |a| == 1 && |b| > 1 && a[0] == b[0] && FirstDifference(a, b, 2)
    ensures FirstDifference(NormalLines(Join(a)), NormalLines(Join(b)), 2) <==> SameLine(a, b, 2)
    ensures forall m: nat :: FirstDifference(NormalLines(Join(a)), NormalLines(Join(b)), m) ==> m >= 2
  {
    LastCommonLine(a, b);
    var p := NormalLines(Bare(a[0]));
    var x, y := if Bare(a[0]) != a[0] then [""] else [], NormalLines(Join(b[1..]));
    forall m: nat
      ensures FirstDifference(p + x, p + y, m) <==> m > |p| && FirstDifference(x, y, m - |p|)
    {
      DifferenceAfter(p, x, y, m);
    }
  }

  lemma DifferenceSymmetric(a: seq<string>, b: seq<string>, n: nat)
    ensures FirstDifference(a, b, n) <==> FirstDifference(b, a, n)
  {
  }

  /** The first line in which the normalised texts differ is never before the reported one; it is
      the reported one if and only if no line before it holds a CR except at its end, and what
      begins there differs up to the first CR. */
  lemma {:induction false} NormalDifferenceIff(a: seq<string>, b: seq<string>, n: nat)
    requires AreLines(a) && AreLines(b) && FirstDifference(a, b, n)
    ensures FirstDifference(NormalLines(Join(a)), NormalLines(Join(b)), n) <==> SameLine(a, b, n)
    ensures forall m: nat :: FirstDifference(NormalLines(Join(a)), NormalLines(Join(b)), m) ==> m >= n
    decreases n
  {
    if n == 1 {
      FirstNormalLine(a);
      FirstNormalLine(b);
    } else if |a| == 1 {
      assert a[0] == a[..n - 1][0] == b[..n - 1][0];
      EndsFirst(a, b);
    } else if |b| == 1 {
      assert b[0] == b[..n - 1][0] == a[..n - 1][0];
      DifferenceSymmetric(a, b, n);
      EndsFirst(b, a);
      forall m: nat
        ensures FirstDifference(NormalLines(Join(a)), NormalLines(Join(b)), m) <==> FirstDifference(NormalLines(Join(b)), NormalLines(Join(a)), m)
      {
        DifferenceSymmetric(NormalLines(Join(a)), NormalLines(Join(b)), m);
      }
    } else {
      CommonLine(a, b, n);
      NormalDifferenceIff(a[1..], b[1..], n - 1);
      DifferenceLater(a, b, n);
    }
  }

  lemma DifferenceLater(a: seq<string>, b: seq<string>, n: nat)
    requires AreLines(a) && AreLines(b) && |a| > 1 && |b| > 1 && n > 1 && FirstDifference(a, b, n)
    requires AreLines(a[1..]) && AreLines(b[1..]) && FirstDifference(a[1..], b[1..], n - 1)
    requires FirstDifference(NormalLines(Join(a[1..])), NormalLines(Join(b[1..])), n - 1) <==> SameLine(a[1..], b[1..], n - 1)
    requires forall m: nat :: FirstDifference(NormalLines(Join(a[1..])), NormalLines(Join(b[1..])), m) ==> m >= n - 1
    ensures FirstDifference(NormalLines(Join(a)), NormalLines(Join(b)), n) <==> SameLine(a, b, n)
    ensures forall m: nat :: FirstDifference(NormalLines(Join(a)), NormalLines(Join(b)), m) ==> m >= n
  {
    CommonLine(a, b, n);
    FrontShifts(NormalLines(Bare(a[0])), NormalLines(Join(a[1..])), NormalLines(Join(b[1..])), n);
    LineHeadShifts(a, n);
    LineHeadShifts(b, n);
    assert Undivided(a, n - 1) <==> Plain(a[0]) && Undivided(a[1..], n - 2) by {
      UndividedShifts(a, n - 1);
    }
  }

  /** Behind a front of one element the first difference is one later, behind a longer one
      further still. */
  lemma FrontShifts(p: seq<string>, x: seq<string>, y: seq<string>, n: nat)
    requires |p| >= 1 && n > 1 && forall m: nat :: FirstDifference(x, y, m) ==> m >= n - 1
    ensures forall m: nat :: FirstDifference(p + x, p + y, m) ==> m >= n
    ensures FirstDifference(p + x, p + y, n) <==> |p| == 1 && FirstDifference(x, y, n - 1)
  {
    forall m: nat
      ensures FirstDifference(p + x, p + y, m) <==> m > |p| && FirstDifference(x, y, m - |p|)
    {
      DifferenceAfter(p, x, y, m);
    }
  }

  lemma LineHeadShifts(lines: seq<string>, n: nat)
    requires |lines| > 1 && 2 <= n <= |lines| + 1
    ensures LineHead(lines, n) == LineHead(lines[1..], n - 1)
  {
  }

  lemma UndividedShifts(lines: seq<string>, n: nat)
    requires 1 <= n <= |lines|
    ensures Undivided(lines, n) <==> Plain(lines[0]) && Undivided(lines[1..], n - 1)
  {
    if Plain(lines[0]) && Undivided(lines[1..], n - 1) {
      forall m | 0 <= m < n
        ensures Plain(lines[m])
      {
        assert m > 0 ==> lines[m] == lines[1..][m - 1];
      }
    }
  }

  /** For texts: with no CR on either side the reported line is the first the comparison tells
      apart; and where no line up to it is split, it is forgiven if and only if the two lines are
      equal up to one CR at their end. */
  lemma ReportedLineForgivenIff(left: string, right: string, n: nat)
    requires FirstDifference(Split(left), Split(right), n)
    ensures CR !in left && CR !in right ==> FirstDifference(NormalLines(left), NormalLines(right), n)
    ensures n <= |Split(left)| && n <= |Split(right)| && Undivided(Split(left), n) && Undivided(Split(right), n) ==>
              (FirstDifference(NormalLines(left), NormalLines(right), n) <==>
               Bare(Split(left)[n - 1]) != Bare(Split(right)[n - 1]))
  {
    var a, b := Split(left), Split(right);
    SplitIff(left, a);
    SplitIff(right, b);
    if CR !in left && CR !in right {
      NormaliseIsIdempotent(left);
      NormaliseIsIdempotent(right);
    }
    if n <= |a| && n <= |b| && Undivided(a, n) && Undivided(b, n) {
      NormalDifferenceIff(a, b, n);
      assert Undivided(a, n - 1);
      HeadOfBare(a[n - 1]);
      HeadOfBare(b[n - 1]);
      assert Plain(a[n - 1]) && Plain(b[n - 1]);
      LinePieces(Bare(a[n - 1]));
      LinePieces(Bare(b[n - 1]));
    }
  }

  datatype Document = Document(title: string, body: string)

  datatype Verdict = Exact | NormalisedMatch | Differs(firstDifferingLine: nat)

  /** What a verification reports. The line is that of the bodies as they are: 0 when only the
      titles differ. */
  ghost predicate IsVerdict(draft: Document, published: Document, v: Verdict) {
    && (v.Exact? <==> draft == published)
    && (v.Differs? <==>
          Normalise(draft.title) != Normalise(published.title) || Normalise(draft.body) != Normalise(published.body))
    && (v.Differs? ==> (v.firstDifferingLine == 0 <==> draft.body == published.body))
    && (v.Differs? && v.firstDifferingLine > 0 ==>
          FirstDifference(Split(draft.body), Split(published.body), v.firstDifferingLine))
  }

  lemma VerdictUnique(draft: Document, published: Document, v: Verdict, w: Verdict)
    requires IsVerdict(draft, published, v) && IsVerdict(draft, published, w)
    ensures v == w
  {
    if v.Differs? && v.firstDifferingLine > 0 {
      FirstDifferenceUnique(Split(draft.body), Split(published.body), v.firstDifferingLine, w.firstDifferingLine);
    }
  }

  /** A verification of two documents whose titles differ and whose bodies match once normalised:
      it reports line 1 although the line differs in its line end alone. */
  lemma LineEndAloneIsNamed(draft: Document, published: Document)
    requires draft == Document("a", "\r\n") && published == Document("b", "\n")
    ensures IsVerdict(draft, published, Differs(1)) && Compare(draft.body, published.body).NormalisedOnly?
    ensures forall n :: !FirstDifference(NormalLines(draft.body), NormalLines(published.body), n)
  {
    TwoPassesAreOne("a");
    TwoPassesAreOne("b");
    TwoPassesAreOne("\r\n");
    TwoPassesAreOne("\n");
    assert "\r\n"[2..] == "" && "\n"[1..] == "" && "\r\n"[1..] == "\n" && "a"[1..] == "" && "b"[1..] == "";
    assert OnePass("a") == "a" && OnePass("b") == "b" && OnePass("\n") == OnePass("\r\n") == "\n";
    assert ["\r", ""][1..] == [""] && ["", ""][1..] == [""];
    assert Join(["\r", ""]) == "\r\n" && Join(["", ""]) == "\n";
    SplitIff("\r\n", ["\r", ""]);
    SplitIff("\n", ["", ""]);
  }

  method Verify(draft: Document, published: Document) returns (v: Verdict)
    ensures IsVerdict(draft, published, v)
  {
    var title, body := Compare(draft.title, published.title), Compare(draft.body, published.body);
    if title.ExactMatch? && body.ExactMatch? {
      return Exact;
    }
    if !title.Mismatch? && !body.Mismatch? {
      return NormalisedMatch;
    }
    var n := FirstDifferingLine(draft.body, published.body);
    v := Differs(n);
  }
}
