// Characters and decimal numerals, as the C library classifies, writes and
// reads them in the "C" locale.

module Characters {

  function Lower(c: char): char {
    if 'A' <= c <= 'Z' then (c as int + 32) as char else c
  }

  function Upper(c: char): char {
    if 'a' <= c <= 'z' then (c as int - 32) as char else c
  }

  /** The value of a hexadecimal digit, -1 for other characters. */
  function Hex(c: char): int {
    if '0' <= c <= '9' then c as int - '0' as int
    else if 'a' <= c <= 'f' then c as int - 'a' as int + 10
    else if 'A' <= c <= 'F' then c as int - 'A' as int + 10
    else -1
  }

  function HexDigit(n: nat, upper: bool): (c: char)
    requires n < 16
    ensures Hex(c) == n
  {
    if n < 10 then (n + '0' as int) as char
    else if upper then (n - 10 + 'A' as int) as char
    else (n - 10 + 'a' as int) as char
  }

  /** isspace. */
  predicate IsSpace(c: char) {
    c == ' ' || '\t' <= c <= '\r'
  }

  /** What is left of s behind its leading blanks. */
  function SkipBlanks(s: string): (r: string)
    ensures |r| <= |s| && (r != "" ==> r[0] != ' ')
  {
    if s != "" && s[0] == ' ' then SkipBlanks(s[1..]) else s
  }
}

module Decimals {

  predicate IsDigit(c: char) {
    '0' <= c <= '9'
  }

  /** "%lu". */
  function Decimal(n: nat): (r: string)
    ensures r != ""
  {
    var last := [(n % 10 + '0' as int) as char];
    if n < 10 then last else Decimal(n / 10) + last
  }

  /** The number of digits at the start of s. */
  function Digits(s: string): (k: nat)
    ensures k <= |s|
    ensures forall i :: 0 <= i < k ==> IsDigit(s[i])
    ensures k < |s| ==> !IsDigit(s[k])
  {
    if s != "" && IsDigit(s[0]) then 1 + Digits(s[1..]) else 0
  }

  function ValueOf(digits: string): nat
    requires forall i :: 0 <= i < |digits| ==> IsDigit(digits[i])
  {
    if digits == "" then 0
    else
      assert IsDigit(digits[|digits| - 1]);
      10 * ValueOf(digits[..|digits| - 1]) + (digits[|digits| - 1] as int - '0' as int)
  }

  /** A numeral is read as its number, and has no superfluous zero. */
  lemma {:induction false} DecimalDigits(n: nat)
    ensures var d := Decimal(n);
      && (forall i :: 0 <= i < |d| ==> IsDigit(d[i]))
      && ValueOf(d) == n && (d[0] == '0' ==> |d| == 1) && (n > 0 ==> d[0] != '0')
  {
    if n >= 10 {
      DecimalDigits(n / 10);
      var d, more := Decimal(n), Decimal(n / 10);
      assert d[..|d| - 1] == more && d[0] == more[0];
    } else {
      var d := Decimal(n);
      assert d[..0] == "";
    }
  }

  lemma {:induction false} DigitsEnd(d: string, tail: string)
    requires (forall i :: 0 <= i < |d| ==> IsDigit(d[i])) && (tail != "" ==> !IsDigit(tail[0]))
    ensures Digits(d + tail) == |d|
  {
    if d == "" {
      assert d + tail == tail;
    } else {
      assert (d + tail)[1..] == d[1..] + tail;
      DigitsEnd(d[1..], tail);
    }
  }
}
