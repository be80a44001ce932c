/** Cutting text at a byte limit without splitting a character (validUTF8Prefix in
    internal/app/mcp_deepwiki.go and compactFeedbackBody in
    internal/app/mcp_pull_request_feedback_search.go). Valid text is that of the grammar in
    section 4 of RFC 3629. */
module Utf8Prefix {
  import opened Text

  predicate Tail(b: Byte) {
    0x80 <= b <= 0xBF
  }

  /** Whether `b` may be the second byte after `first`: a narrower range after E0, ED, F0 and F4
      rules out overlong forms, surrogates and values beyond U+10FFFF. */
  predicate Second(first: Byte, b: Byte) {
    && Tail(b)
    && (first == 0xE0 ==> b >= 0xA0)
    && (first == 0xED ==> b <= 0x9F)
    && (first == 0xF0 ==> b >= 0x90)
    && (first == 0xF4 ==> b <= 0x8F)
  }

  /** The number of bytes a character that begins with `first` has; 0 when none does. */
  function LengthFrom(first: Byte): nat {
    if first <= 0x7F then 1
    else if 0xC2 <= first <= 0xDF then 2
    else if 0xE0 <= first <= 0xEF then 3
    else if 0xF0 <= first <= 0xF4 then 4
    else 0
  }

  /** The length of the character at the front, or 0 when there is none. */
  function FrontLength(s: seq<Byte>): (n: nat)
    ensures n <= |s| && n <= 4
  {
    if s == [] || LengthFrom(s[0]) > |s| then 0
    else
      var n := LengthFrom(s[0]);
      if (n >= 2 && !Second(s[0], s[1])) || (n >= 3 && !Tail(s[2])) || (n >= 4 && !Tail(s[3])) then 0 else n
  }

  /** A sequence of characters. */
  predicate Valid(s: seq<Byte>) {
    s == [] || (FrontLength(s) > 0 && Valid(s[FrontLength(s)..]))
  }

  // ---------------------------------------------------------------------------
  // Characters, by section 3 of RFC 3629
  // ---------------------------------------------------------------------------

  predicate Scalar(c: int) {
    0 <= c <= 0xD7FF || 0xE000 <= c <= 0x10FFFF
  }

  function Rest(c: int): Byte
    requires 0 <= c
  {
    (0x80 + c % 64) as Byte
  }

  function Encode(c: int): (s: seq<Byte>)
    requires Scalar(c)
    ensures 1 <= |s| <= 4
  {
    if c < 0x80 then [c as Byte]
    else if c < 0x800 then [(0xC0 + c / 64) as Byte, Rest(c)]
    else if c < 0x10000 then [(0xE0 + c / 64 / 64) as Byte, Rest(c / 64), Rest(c)]
    else [(0xF0 + c / 64 / 64 / 64) as Byte, Rest(c / 64 / 64), Rest(c / 64), Rest(c)]
  }

  /** An encoded character is the one at the front of whatever text it begins. */
  lemma EncodedIsFront(c: int, rest: seq<Byte>)
    requires Scalar(c)
    ensures FrontLength(Encode(c) + rest) == |Encode(c)|
  {
    var s := Encode(c) + rest;
    assert s[..|Encode(c)|] == Encode(c);
  }

  /** The value of a tail byte. */
  function Low(b: Byte): int
    requires Tail(b)
  {
    b as int - 0x80
  }

  lemma TwoBytes(a: int, b: int) returns (c: int)
    requires 0 <= a && 0 <= b < 64
    ensures c == a * 64 + b && c / 64 == a && c % 64 == b
  {
    c := a * 64 + b;
  }

  lemma FrontOfTwo(s: seq<Byte>) returns (c: int)
    requires FrontLength(s) == 2
    ensures Scalar(c) && Encode(c) == s[..2]
  {
    c := TwoBytes(s[0] as int - 0xC0, Low(s[1]));
  }

  lemma FrontOfThree(s: seq<Byte>) returns (c: int)
    requires FrontLength(s) == 3
    ensures Scalar(c) && Encode(c) == s[..3]
  {
    var high := TwoBytes(s[0] as int - 0xE0, Low(s[1]));
    c := TwoBytes(high, Low(s[2]));
  }

  lemma FrontOfFour(s: seq<Byte>) returns (c: int)
    requires FrontLength(s) == 4
    ensures Scalar(c) && Encode(c) == s[..4]
  {
    var top := TwoBytes(s[0] as int - 0xF0, Low(s[1]));
    var high := TwoBytes(top, Low(s[2]));
    c := TwoBytes(high, Low(s[3]));
  }

  /** The character at the front is an encoded one. */
  lemma FrontIsEncoded(s: seq<Byte>) returns (c: int)
    requires FrontLength(s) > 0
    ensures Scalar(c) && Encode(c) == s[..FrontLength(s)]
  {
    match FrontLength(s)
    case 1 => c := s[0] as int;
    case 2 => c := FrontOfTwo(s);
    case 3 => c := FrontOfThree(s);
    case _ => c := FrontOfFour(s);
  }

  function EncodeAll(cs: seq<int>): seq<Byte>
    requires forall c :: c in cs ==> Scalar(c)
  {
    if cs == [] then [] else Encode(cs[0]) + EncodeAll(cs[1..])
  }

  lemma {:induction false} EncodedIsValid(cs: seq<int>)
    requires forall c :: c in cs ==> Scalar(c)
    ensures Valid(EncodeAll(cs))
  {
    if cs != [] {
      EncodedIsValid(cs[1..]);
      EncodedIsFront(cs[0], EncodeAll(cs[1..]));
      assert EncodeAll(cs)[|Encode(cs[0])|..] == EncodeAll(cs[1..]);
    }
  }

  ghost predicate Encodes(cs: seq<int>, s: seq<Byte>) {
    (forall c :: c in cs ==> Scalar(c)) && EncodeAll(cs) == s
  }

  lemma EncodeOneMore(s: seq<Byte>, n: nat, c: int, cs: seq<int>)
    requires n <= |s| && Scalar(c) && Encode(c) == s[..n] && Encodes(cs, s[n..])
    ensures Encodes([c] + cs, s)
  {
    assert ([c] + cs)[1..] == cs;
    assert s == s[..n] + s[n..];
  }

  lemma {:induction false} ValidIsEncoded(s: seq<Byte>) returns (cs: seq<int>)
    requires Valid(s)
    ensures Encodes(cs, s)
  {
    if s == [] {
      cs := [];
    } else {
      var n := FrontLength(s);
      var c := FrontIsEncoded(s);
      var rest := ValidIsEncoded(s[n..]);
      EncodeOneMore(s, n, c, rest);
      cs := [c] + rest;
    }
  }

  /** Valid text is exactly the encoding of a sequence of characters. */
  lemma ValidIff(s: seq<Byte>)
    ensures Valid(s) <==> exists cs :: Encodes(cs, s)
  {
    if Valid(s) {
      var cs := ValidIsEncoded(s);
    } else if cs :| Encodes(cs, s) {
      EncodedIsValid(cs);
    }
  }

  // ---------------------------------------------------------------------------
  // Cutting
  // ---------------------------------------------------------------------------

  /** More bytes do not change the character at the front, nor do fewer as long as they hold it. */
  lemma FrontStays(s: seq<Byte>, k: nat)
    requires k <= |s|
    ensures FrontLength(s[..k]) > 0 ==> FrontLength(s) == FrontLength(s[..k])
    ensures 0 < FrontLength(s) <= k ==> FrontLength(s[..k]) == FrontLength(s)
    ensures FrontLength(s) > k ==> FrontLength(s[..k]) == 0
  {
  }

  /** A prefix of valid text is valid exactly at the character boundaries, and cutting there
      leaves valid text behind. */
  lemma {:induction false} BoundaryLeavesValid(s: seq<Byte>, k: nat)
    requires k <= |s| && Valid(s[..k])
    ensures Valid(s) <==> Valid(s[k..])
    decreases |s|
  {
    if k > 0 {
      FrontStays(s, k);
      var n := FrontLength(s);
      assert s[..k][n..] == s[n..][..k - n];
      assert s[n..][k - n..] == s[k..];
      BoundaryLeavesValid(s[n..], k - n);
    }
  }

  /** Valid text has a boundary within three bytes below any limit. */
  lemma {:induction false} BoundaryNearby(s: seq<Byte>, limit: nat) returns (k: nat)
    requires Valid(s) && limit <= |s|
    ensures k <= limit <= k + 3 && Valid(s[..k])
    decreases |s|
  {
    var n := FrontLength(s);
    if limit < n || s == [] {
      return 0;
    }
    k := BoundaryNearby(s[n..], limit - n);
    k := k + n;
    FrontStays(s, k);
    assert s[..k][n..] == s[n..][..k - n];
  }

  /** The result is the value itself when it fits, and otherwise the longest valid prefix within
      the limit; of valid text at most three bytes of the limit are given up, and what is cut
      off is valid too. */
  method ValidPrefix(value: seq<Byte>, maxBytes: nat) returns (r: seq<Byte>)
    ensures r <= value && |r| <= maxBytes
    ensures |value| <= maxBytes ==> r == value
    ensures |value| > maxBytes ==> Valid(r) && forall k :: |r| < k <= maxBytes ==> !Valid(value[..k])
    ensures Valid(value) && |value| > maxBytes ==> |r| + 3 >= maxBytes
    ensures Valid(value) ==> Valid(r) && Valid(value[|r|..])
  {
    if |value| <= maxBytes {
      assert value[|value|..] == [];
      return value;
    }
    var end := maxBytes;
    while end > 0 && !Valid(value[..end])
      invariant 0 <= end <= maxBytes < |value|
      invariant forall k :: end < k <= maxBytes ==> !Valid(value[..k])
      decreases end
    {
      end := end - 1;
    }
    r := value[..end];
    if Valid(value) {
      BoundaryLeavesValid(value, end);
      ghost var k := BoundaryNearby(value, maxBytes);
    }
  }

  const COMPACT_BYTES := 512

  /** A space and an ellipsis. */
  const MARK: seq<Byte> := [0x20, 0xE2, 0x80, 0xA6]

  /** A compacted body stays valid text and within 516 bytes. */
  method CompactBody(value: seq<Byte>) returns (r: seq<Byte>)
    ensures |r| <= 516
    ensures |value| <= COMPACT_BYTES ==> r == value
    ensures |value| > COMPACT_BYTES ==> |r| >= |MARK| && Valid(r) && r[..|r| - |MARK|] <= value && r[|r| - |MARK|..] == MARK
    ensures |value| > COMPACT_BYTES && Valid(value) ==> |r| - |MARK| >= 509
  {
    if |value| <= COMPACT_BYTES {
      return value;
    }
    var front := ValidPrefix(value, COMPACT_BYTES);
    r := front + MARK;
    assert r[..|front|] == front && r[|front|..] == MARK;
    MarkIsValid();
    BoundaryLeavesValid(r, |front|);
  }

  lemma MarkIsValid()
    ensures Valid(MARK)
  {
    assert FrontLength(MARK) == 1 && MARK[1..] == [0xE2, 0x80, 0xA6];
    assert FrontLength(MARK[1..]) == 3 && MARK[1..][3..] == [];
  }

  /** Three bytes can be lost: a four-byte character at a limit of three. */
  lemma ThreeBytesLost(value: seq<Byte>)
    requires value == [0xF0, 0x9F, 0x98, 0x80]
    ensures Valid(value) && forall k :: 0 < k <= 3 ==> !Valid(value[..k])
  {
    assert FrontLength(value) == 4 && value[4..] == [];
    forall k | 0 < k <= 3
      ensures !Valid(value[..k])
    {
      FrontStays(value, k);
    }
  }
}
