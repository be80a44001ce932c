/** Decimal numerals as Go's strconv prints and reads them. */
module Decimal {
  import opened Options

  const MAX_INT := 0x7FFF_FFFF_FFFF_FFFF

  predicate IsDigit(c: char) {
    '0' <= c <= '9'
  }

  function Itoa(n: nat): (s: string)
    ensures s != "" && IsDigit(s[0])
  {
    var last := '0' + (n % 10) as char;
    if n < 10 then [last] else Itoa(n / 10) + [last]
  }

  /** None when some character is no digit. */
  function Digits(s: string): Option<nat> {
    if s == "" then Some(0)
    else
      var (last, rest) := (s[|s| - 1], Digits(s[..|s| - 1]));
      if rest.None? || !IsDigit(last) then None else Some(10 * rest.value + (last - '0') as nat)
  }

  /** strconv.Atoi on a 64-bit platform; None is its error. */
  function Atoi(s: string): Option<int> {
    if s == "" then None
    else if s[0] == '+' || s[0] == '-' then
      if |s| == 1 || Digits(s[1..]).None? then None
      else Ranged(if s[0] == '-' then -(Digits(s[1..]).value as int) else Digits(s[1..]).value)
    else if Digits(s).None? then None
    else Ranged(Digits(s).value)
  }

  function Ranged(n: int): Option<int> {
    if -MAX_INT - 1 <= n <= MAX_INT then Some(n) else None
  }

  lemma {:induction false} DigitsOfItoa(n: nat)
    ensures Digits(Itoa(n)) == Some(n)
    ensures forall c :: c in Itoa(n) ==> IsDigit(c)
  {
    var s := Itoa(n);
    if n >= 10 {
      DigitsOfItoa(n / 10);
      assert s[..|s| - 1] == Itoa(n / 10);
    } else {
      assert s[..0] == "";
    }
  }

  /** Printing and reading a number gives it back when it fits the machine. */
  lemma AtoiOfItoa(n: nat)
    ensures Atoi(Itoa(n)) == if n <= 9223372036854775807 then Some(n) else None
    ensures Atoi("+" + Itoa(n)) == Atoi(Itoa(n))
    ensures Atoi("-" + Itoa(n)) == if n <= 9223372036854775808 then Some(-(n as int)) else None
  {
    DigitsOfItoa(n);
    assert ("+" + Itoa(n))[1..] == Itoa(n) && ("-" + Itoa(n))[1..] == Itoa(n);
  }
}
