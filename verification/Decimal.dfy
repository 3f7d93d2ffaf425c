/** Decimal text: what `<<` and `std::to_string` print, and what `std::stoi` reads back. */
module Decimal {
  import opened Results

  const INT_MAX := 0x7fff_ffff
  const INT_MIN := -0x8000_0000

  predicate IsDigit(c: char) {
    '0' <= c <= '9'
  }

  predicate AllDigits(s: string) {
    forall i :: 0 <= i < |s| ==> IsDigit(s[i])
  }

  function DigitChar(d: nat): (c: char)
    requires d < 10
    ensures IsDigit(c) && DigitValue(c) == d
  {
    ('0' as int + d) as char
  }

  function DigitValue(c: char): nat
    requires IsDigit(c)
  {
    c as int - '0' as int
  }

  function Print(n: nat): (s: string)
    ensures s != "" && AllDigits(s)
  {
    if n < 10 then [DigitChar(n)] else Print(n / 10) + [DigitChar(n % 10)]
  }

  function Value(s: string): nat
    requires AllDigits(s)
  {
    if s == "" then 0 else 10 * Value(s[..|s| - 1]) + DigitValue(s[|s| - 1])
  }

  lemma {:induction false} ValueOfPrint(n: nat)
    ensures Value(Print(n)) == n
  {
    if n >= 10 {
      var s := Print(n);
      assert s[..|s| - 1] == Print(n / 10);
      ValueOfPrint(n / 10);
    }
  }

  lemma PrintInjective(m: nat, n: nat)
    requires Print(m) == Print(n)
    ensures m == n
  {
    ValueOfPrint(m);
    ValueOfPrint(n);
  }

  predicate IsSpace(c: char) {
    c == ' ' || '\t' <= c <= '\r'
  }

  function SkipSpace(s: string): string {
    if s != "" && IsSpace(s[0]) then SkipSpace(s[1..]) else s
  }

  /** The longest prefix of digits. */
  function DigitRun(s: string): (r: string)
    ensures AllDigits(r)
  {
    if s != "" && IsDigit(s[0]) then [s[0]] + DigitRun(s[1..]) else ""
  }

  /** `std::stoi`: blanks, a sign, then digits; text after the digits is ignored.  `None` stands for
      the two exceptions it throws: no digits at all, and a number that an `int` cannot hold. */
  function StoI(s: string): Option<int> {
    var t := SkipSpace(s);
    var signed := t != "" && (t[0] == '-' || t[0] == '+');
    var digits := DigitRun(if signed then t[1..] else t);
    if digits == "" then
      None
    else
      var n: int := if signed && t[0] == '-' then 0 - Value(digits) else Value(digits);
      if INT_MIN <= n <= INT_MAX then Some(n) else None
  }

  lemma {:induction false} DigitRunOfDigits(s: string)
    requires AllDigits(s)
    ensures DigitRun(s) == s
  {
    if s != "" {
      DigitRunOfDigits(s[1..]);
    }
  }

  /** A printed number reads back exactly when an `int` can hold it. */
  lemma StoIOfPrint(n: nat)
    ensures StoI(Print(n)) == if n <= INT_MAX then Some(n) else None
  {
    var s := Print(n);
    assert IsDigit(s[0]);
    DigitRunOfDigits(s);
    ValueOfPrint(n);
  }

  /** All ten digits, most significant first. */
  lemma PrintedDigits()
    ensures Print(1234567890) == "1234567890"
  {
    assert Print(1) == "1";
    assert Print(12) == Print(1) + "2";
    assert Print(123) == Print(12) + "3";
    assert Print(1234) == Print(123) + "4";
    assert Print(12345) == Print(1234) + "5";
    assert Print(123456) == Print(12345) + "6";
    assert Print(1234567) == Print(123456) + "7";
    assert Print(12345678) == Print(1234567) + "8";
    assert Print(123456789) == Print(12345678) + "9";
  }

  lemma {:induction false} SkipBlanks(blanks: string, rest: string)
    requires forall i :: 0 <= i < |blanks| ==> IsSpace(blanks[i])
    requires rest != "" ==> !IsSpace(rest[0])
    ensures SkipSpace(blanks + rest) == rest
  {
    if blanks == "" {
      assert blanks + rest == rest;
    } else {
      assert (blanks + rest)[1..] == blanks[1..] + rest;
      SkipBlanks(blanks[1..], rest);
    }
  }

  lemma {:induction false} DigitRunBefore(digits: string, tail: string)
    requires AllDigits(digits) && (tail != "" ==> !IsDigit(tail[0]))
    ensures DigitRun(digits + tail) == digits
  {
    if digits == "" {
      assert digits + tail == tail;
    } else {
      assert (digits + tail)[1..] == digits[1..] + tail;
      DigitRunBefore(digits[1..], tail);
    }
  }

  /** `std::stoi` on a line that is not just a printed number: blanks before it, a sign and anything behind
      it do not matter. */
  lemma StoIReads(blanks: string, sign: string, n: nat, tail: string)
    requires forall i :: 0 <= i < |blanks| ==> IsSpace(blanks[i])
    requires sign == "" || sign == "+" || sign == "-"
    requires tail != "" ==> !IsDigit(tail[0])
    ensures var m := if sign == "-" then 0 - n else n;
            StoI(blanks + (sign + (Print(n) + tail))) == if INT_MIN <= m <= INT_MAX then Some(m) else None
  {
    var digits := Print(n) + tail;
    assert IsDigit(digits[0]);
    SkipBlanks(blanks, sign + digits);
    assert sign == "" ==> sign + digits == digits;
    assert sign != "" ==> (sign + digits)[1..] == digits;
    DigitRunBefore(Print(n), tail);
    ValueOfPrint(n);
  }

  function Pow10(k: nat): nat {
    if k == 0 then 1 else 10 * Pow10(k - 1)
  }

  lemma {:induction false} PrintLength(n: nat, k: nat)
    requires k > 0 && n < Pow10(k)
    ensures |Print(n)| <= k
  {
    if n >= 10 {
      assert k > 1;
      PrintLength(n / 10, k - 1);
    }
  }
}
