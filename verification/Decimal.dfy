/** Base-10 printing and strconv.ParseInt(s, 10, 64). */
module Decimal {
  import opened Prelude

  const MIN_INT64: int := -0x8000_0000_0000_0000
  const MAX_INT64: int := 0x7FFF_FFFF_FFFF_FFFF

  predicate IsDigit(c: char) { '0' <= c <= '9' }

  predicate AllDigits(s: string) { forall i :: 0 <= i < |s| ==> IsDigit(s[i]) }

  function DigitChar(d: nat): (c: char)
    requires d < 10
    ensures IsDigit(c) && DigitValue(c) == d
  {
    '0' + d as char
  }

  function DigitValue(c: char): (d: nat)
    requires IsDigit(c)
    ensures d < 10
  {
    (c - '0') as int
  }

  // fmt.Sprint of a non-negative integer.
  function Print(n: nat): (s: string)
    ensures s != "" && AllDigits(s) && Value(s) == n
  {
    if n < 10 then [DigitChar(n)] else Print(n / 10) + [DigitChar(n % 10)]
  }

  // The number a string of digits denotes.
  function Value(s: string): nat
    requires AllDigits(s)
  {
    if s == "" then 0 else Value(s[..|s| - 1]) * 10 + DigitValue(s[|s| - 1])
  }

  // fmt's %d.
  function PrintInt(n: int): string {
    if n < 0 then "-" + Print(-n) else Print(n)
  }

  // None stands for a syntax or range error.
  function ParseInt(s: string): (r: Option<int>)
    ensures r.Some? ==> MIN_INT64 <= r.value <= MAX_INT64
  {
    if s == "" then None
    else if s[0] == '-' then Bounded(s[1..], -1)
    else if s[0] == '+' then Bounded(s[1..], 1)
    else Bounded(s, 1)
  }

  function Bounded(digits: string, sign: int): Option<int> {
    if digits == "" || !AllDigits(digits) then None
    else if MIN_INT64 <= sign * Value(digits) <= MAX_INT64 then Some(sign * Value(digits))
    else None
  }

  // ParseInt reads back exactly the numbers that fit 64 bits.
  lemma ParsePrinted(n: int)
    ensures ParseInt(PrintInt(n)) == if MIN_INT64 <= n <= MAX_INT64 then Some(n) else None
  {
    if n < 0 {
      assert PrintInt(n)[1..] == Print(-n);
    } else {
      assert IsDigit(Print(n)[0]);
    }
  }

  // A sign is read as one, and nothing but digits after it.
  lemma ParseSigned(s: string)
    ensures AllDigits(s) && s != "" && Value(s) <= MAX_INT64 ==>
              && ParseInt(s) == ParseInt("+" + s) == Some(Value(s))
              && ParseInt("-" + s).Some? && ParseInt("-" + s).value + Value(s) == 0
    ensures !AllDigits(s) || s == "" ==> ParseInt("+" + s) == None && ParseInt("-" + s) == None
  {
    assert ("+" + s)[1..] == s && ("-" + s)[1..] == s;
    assert AllDigits(s) && s != "" ==> IsDigit(s[0]);
  }
}
