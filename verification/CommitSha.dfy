/** Exact pull-request heads (gitCommitSHA in internal/app/mcp_pr_check_wait.go): a head is
    given and compared as hexadecimal text, but stored as twenty bytes. */
module CommitSha {
  import opened Options
  import opened Text

  const SHA_BYTES := 20

  /** The characters a trim removes: Unicode's White_Space property. */
  predicate Space(c: char) {
    c in " \t\n\r\U{0B}\U{0C}\U{85}\U{A0}\U{1680}\U{2028}\U{2029}\U{202F}\U{205F}\U{3000}"
    || '\U{2000}' <= c <= '\U{200A}'
  }

  function TrimLeft(s: string): string {
    if s != [] && Space(s[0]) then TrimLeft(s[1..]) else s
  }

  function Trim(s: string): string {
    TrimRight(TrimLeft(s))
  }

  function TrimRight(s: string): string {
    if s != [] && Space(s[|s| - 1]) then TrimRight(s[..|s| - 1]) else s
  }

  function Digit(n: int): char
    requires 0 <= n < 16
  {
    if n < 10 then '0' + n as char else 'a' + (n - 10) as char
  }

  function Nibble(c: char): Option<int> {
    if '0' <= c <= '9' then Some((c - '0') as int)
    else if 'a' <= LowerChar(c) <= 'f' then Some((LowerChar(c) - 'a') as int + 10)
    else None
  }

  function Encode(bytes: seq<Byte>): string {
    if bytes == [] then ""
    else [Digit(bytes[0] as int / 16), Digit(bytes[0] as int % 16)] + Encode(bytes[1..])
  }

  function Decode(s: string): Option<seq<Byte>> {
    if s == [] then Some([])
    else if |s| == 1 || Nibble(s[0]).None? || Nibble(s[1]).None? then None
    else
      match Decode(s[2..])
      case None => None
      case Some(rest) => Prepend(s[0], s[1], rest)
  }

  function Prepend(high: char, low: char, rest: seq<Byte>): (r: Option<seq<Byte>>)
    requires Nibble(high).Some? && Nibble(low).Some?
  {
    Some([(16 * Nibble(high).value + Nibble(low).value) as Byte] + rest)
  }

  /** parseGitCommitSHA; None is its error. */
  function Parse(value: string): Option<seq<Byte>> {
    match Decode(Trim(value))
    case None => None
    case Some(bytes) => if |bytes| == SHA_BYTES then Some(bytes) else None
  }

  predicate EqualFold(a: string, b: string) {
    |a| == |b| && forall i :: 0 <= i < |a| ==> LowerChar(a[i]) == LowerChar(b[i])
  }

  /** matches: the text names this head, up to letter case and surrounding space. */
  predicate Matches(sha: seq<Byte>, value: string) {
    EqualFold(Trim(value), Encode(sha))
  }

  lemma NibbleOfDigit(n: int, c: char)
    requires 0 <= n < 16
    ensures LowerChar(c) == LowerChar(Digit(n)) <==> Nibble(c) == Some(n)
  {
  }

  lemma {:induction false} FoldIffDecodes(s: string, bytes: seq<Byte>)
    ensures EqualFold(s, Encode(bytes)) <==> Decode(s) == Some(bytes)
    decreases |bytes|
  {
    if bytes != [] && |s| >= 2 {
      var e, b := Encode(bytes), bytes[0] as int;
      FoldIffDecodes(s[2..], bytes[1..]);
      NibbleOfDigit(b / 16, s[0]);
      NibbleOfDigit(b % 16, s[1]);
      FoldSplits(s, e);
      assert e[2..] == Encode(bytes[1..]);
      DecodeSplits(s, bytes);
    }
  }

  lemma FoldSplits(a: string, b: string)
    requires |a| >= 2 && |b| >= 2
    ensures EqualFold(a, b) <==> LowerChar(a[0]) == LowerChar(b[0]) && LowerChar(a[1]) == LowerChar(b[1]) && EqualFold(a[2..], b[2..])
  {
    if EqualFold(a[2..], b[2..]) {
      assert forall i :: 2 <= i < |a| ==> a[2..][i - 2] == a[i] && b[2..][i - 2] == b[i];
    }
  }

  lemma DecodeSplits(s: string, bytes: seq<Byte>)
    requires |s| >= 2 && bytes != []
    ensures Decode(s) == Some(bytes) <==>
              && Nibble(s[0]) == Some(bytes[0] as int / 16) && Nibble(s[1]) == Some(bytes[0] as int % 16)
              && Decode(s[2..]) == Some(bytes[1..])
  {
    assert bytes == [bytes[0]] + bytes[1..];
  }

  predicate IsHex(c: char) {
    '0' <= c <= '9' || 'a' <= c <= 'f' || 'A' <= c <= 'F'
  }

  lemma {:induction false} DecodeShape(s: string)
    ensures Decode(s).Some? <==> |s| % 2 == 0 && forall i :: 0 <= i < |s| ==> IsHex(s[i])
    ensures Decode(s).Some? ==> 2 * |Decode(s).value| == |s|
  {
    if |s| >= 2 {
      DecodeShape(s[2..]);
      NibbleShape(s[0]);
      NibbleShape(s[1]);
      assert forall i :: 2 <= i < |s| ==> s[i] == s[2..][i - 2];
    } else if |s| == 1 {
      NibbleShape(s[0]);
    }
  }

  lemma NibbleShape(c: char)
    ensures Nibble(c).Some? <==> IsHex(c)
  {
  }

  /** Exactly the texts of forty hexadecimal digits are heads, surrounding space aside. */
  lemma ParsedShape(value: string)
    ensures Parse(value).Some? <==> |Trim(value)| == 40 && forall i :: 0 <= i < 40 ==> IsHex(Trim(value)[i])
  {
    DecodeShape(Trim(value));
  }

  /** Trimming removes the space around a text and nothing else. */
  lemma {:induction false} TrimRemovesSpace(before: string, s: string, after: string)
    requires forall c :: c in before + after ==> Space(c)
    requires s != "" && !Space(s[0]) && !Space(s[|s| - 1])
    ensures Trim(before + s + after) == s
    decreases |before| + |after|
  {
    if before != "" {
      assert (before + s + after)[1..] == before[1..] + s + after;
      TrimRemovesSpace(before[1..], s, after);
    } else {
      assert before + s + after == s + after;
      TrimRightRemoves(s, after);
    }
  }

  lemma {:induction false} TrimRightRemoves(s: string, after: string)
    requires forall c :: c in after ==> Space(c)
    requires s != "" && !Space(s[|s| - 1])
    ensures TrimRight(s + after) == s
  {
    if after == "" {
      assert s + after == s;
    } else {
      var t := s + after;
      assert t[..|t| - 1] == s + after[..|after| - 1];
      TrimRightRemoves(s, after[..|after| - 1]);
    }
  }

  /** A text matches a head exactly when it parses to it, so accepting an expected head and
      comparing an observed one are the same test. */
  lemma MatchesIffParses(sha: seq<Byte>, value: string)
    requires |sha| == SHA_BYTES
    ensures Matches(sha, value) <==> Parse(value) == Some(sha)
  {
    FoldIffDecodes(Trim(value), sha);
  }

  /** Hence no text matches two different heads. */
  lemma OneHeadMatches(a: seq<Byte>, b: seq<Byte>, value: string)
    requires |a| == |b| == SHA_BYTES && Matches(a, value) && Matches(b, value)
    ensures a == b
  {
    MatchesIffParses(a, value);
    MatchesIffParses(b, value);
  }

  lemma {:induction false} EncodeIsTight(bytes: seq<Byte>, i: nat)
    requires i < |Encode(bytes)|
    ensures '0' <= Encode(bytes)[i] <= '9' || 'a' <= Encode(bytes)[i] <= 'f'
  {
    if i >= 2 {
      EncodeIsTight(bytes[1..], i - 2);
    }
  }

  /** A head is printed as forty lower-case hexadecimal digits, and parsing them gives it back. */
  lemma ShaRoundTrip(sha: seq<Byte>)
    requires |sha| == SHA_BYTES
    ensures Parse(Encode(sha)) == Some(sha)
    ensures |Encode(sha)| == 40 && forall c :: c in Encode(sha) ==> '0' <= c <= '9' || 'a' <= c <= 'f'
  {
    var e := Encode(sha);
    EncodeIsTight(sha, 0);
    EncodeIsTight(sha, |e| - 1);
    assert Trim(e) == e;
    MatchesIffParses(sha, e);
    ParsedShape(e);
    forall i | 0 <= i < |e|
      ensures '0' <= e[i] <= '9' || 'a' <= e[i] <= 'f'
    {
      EncodeIsTight(sha, i);
    }
  }
}
