/** strconv.FormatInt, strconv.ParseInt (base 10, 64 bits) and strings.Cut. */
module Decimal {

  type Int64 = x: int | -0x8000_0000_0000_0000 <= x < 0x8000_0000_0000_0000

  datatype Option<+T> = None | Some(value: T)

  function DigitChar(d: nat): char
    requires d < 10
  {
    '0' + d as char
  }

  predicate IsDigit(c: char) { '0' <= c <= '9' }

  function DigitValue(c: char): nat
    requires IsDigit(c)
  {
    c as int - '0' as int
  }

  function FormatNat(n: nat): string {
    if n < 10 then [DigitChar(n)] else FormatNat(n / 10) + [DigitChar(n % 10)]
  }

  function FormatInt(n: int): string {
    if n < 0 then "-" + FormatNat(-n) else FormatNat(n)
  }

  predicate AllDigits(s: string) {
    forall i :: 0 <= i < |s| ==> IsDigit(s[i])
  }

  function NatValue(s: string): nat
    requires AllDigits(s)
  {
    if s == [] then 0 else 10 * NatValue(s[..|s| - 1]) + DigitValue(s[|s| - 1])
  }

  /** An unsigned run of digits; empty input is a syntax error. */
  function ParseNat(s: string): Option<nat> {
    if s != [] && AllDigits(s) then Some(NatValue(s)) else None
  }

  /** None stands for strconv.ErrSyntax and strconv.ErrRange alike. */
  function ParseInt(s: string): Option<Int64> {
    var negative := s != [] && s[0] == '-';
    var digits := if s != [] && (s[0] == '-' || s[0] == '+') then s[1..] else s;
    match ParseNat(digits)
    case None => None
    case Some(n) =>
      var k: int := n;
      var v := if negative then -k else k;
      if -0x8000_0000_0000_0000 <= v < 0x8000_0000_0000_0000 then Some(v) else None
  }

  /** The part of s before the first sep, or all of s when there is none. */
  function CutBefore(s: string, sep: char): string {
    if s == [] || s[0] == sep then [] else [s[0]] + CutBefore(s[1..], sep)
  }

  /** The part of s after the first sep, or nothing when there is none. */
  function CutAfter(s: string, sep: char): string {
    if s == [] then [] else if s[0] == sep then s[1..] else CutAfter(s[1..], sep)
  }

  lemma {:induction false} CutJoined(a: string, sep: char, b: string)
    requires sep !in a
    ensures CutBefore(a + [sep] + b, sep) == a
    ensures CutAfter(a + [sep] + b, sep) == b
  {
    var s := a + [sep] + b;
    if a == [] {
      assert s[1..] == b;
    } else {
      CutJoined(a[1..], sep, b);
      assert s[1..] == a[1..] + [sep] + b;
    }
  }

  lemma {:induction false} FormatNatDigits(n: nat)
    ensures FormatNat(n) != [] && AllDigits(FormatNat(n))
    ensures NatValue(FormatNat(n)) == n
  {
    if n < 10 {
      assert [DigitChar(n)][..0] == [];
    } else {
      FormatNatDigits(n / 10);
      var s := FormatNat(n / 10);
      assert (s + [DigitChar(n % 10)])[..|s|] == s;
    }
  }

  /** Parsing the decimal form of a 64-bit integer gives the integer back. */
  lemma FormatParse(n: Int64)
    ensures ParseInt(FormatInt(n)) == Some(n)
    ensures ':' !in FormatInt(n) && '#' !in FormatInt(n)
  {
    var k: int := n;
    var m := if k < 0 then -k else k;
    FormatNatDigits(m);
    var s := FormatNat(m);
    assert IsDigit(s[0]);
    if n < 0 {
      assert ("-" + s)[1..] == s;
    }
  }
}
