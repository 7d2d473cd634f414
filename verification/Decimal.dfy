/** Decimal integers as `std::to_string` prints them and `std::from_chars` reads them. */
module Decimal {

  predicate IsDigit(c: char) { '0' <= c <= '9' }

  function DigitChar(d: nat): (c: char)
    requires d < 10
    ensures IsDigit(c)
  {
    '0' + d as char
  }

  function DigitValue(c: char): (d: nat)
    requires IsDigit(c)
    ensures d < 10
  {
    c as int - '0' as int
  }

  /** std::to_string for a nonnegative number. */
  function Digits(n: nat): (s: string)
    ensures s != "" && forall c <- s :: IsDigit(c)
  {
    if n < 10 then [DigitChar(n)] else Digits(n / 10) + [DigitChar(n % 10)]
  }

  function ToString(n: int): string { if n < 0 then "-" + Digits(-n) else Digits(n) }

  function Value(s: string): nat
    requires forall c <- s :: IsDigit(c)
  {
    if s == "" then 0 else 10 * Value(s[..|s| - 1]) + DigitValue(s[|s| - 1])
  }

  /** How many leading characters are digits. */
  function LeadingDigits(s: string): (k: nat)
    ensures k <= |s| && (forall i :: 0 <= i < k ==> IsDigit(s[i])) && (k < |s| ==> !IsDigit(s[k]))
  {
    if s == "" || !IsDigit(s[0]) then 0 else 1 + LeadingDigits(s[1..])
  }

  /**
   * std::from_chars into a variable that holds `initial`: an optional minus sign (signed types only),
   * then as many digits as there are. Without digits, or out of range, the variable keeps its value.
   */
  function FromChars(s: string, isSigned: bool, low: int, high: int, initial: int): int {
    var negative := isSigned && s != "" && s[0] == '-';
    var body := if negative then s[1..] else s;
    var digits := body[..LeadingDigits(body)];
    if digits == "" then initial
    else
      var v: int := if negative then 0 - Value(digits) else Value(digits);
      if low <= v <= high then v else initial
  }

  lemma {:induction false} ValueOfDigits(n: nat)
    ensures Value(Digits(n)) == n
  {
    if n >= 10 {
      ValueOfDigits(n / 10);
      assert Digits(n)[..|Digits(n)| - 1] == Digits(n / 10);
    }
  }

  /** Printed digits are read up to the first other character; a number out of range leaves the variable as it was. */
  lemma FromCharsReads(n: int, rest: string, isSigned: bool, low: int, high: int, initial: int)
    requires (n < 0 ==> isSigned) && (rest == "" || !IsDigit(rest[0]))
    ensures FromChars(ToString(n) + rest, isSigned, low, high, initial) == if low <= n <= high then n else initial
  {
    var size := if n < 0 then -n else n;
    PrintedDigitsAreRead(size, rest);
    hide Digits, Value, LeadingDigits;
    var digits := Digits(size);
    assert IsDigit(digits[0]);
    if n < 0 {
      assert (ToString(n) + rest)[1..] == digits + rest;
    } else {
      assert (ToString(n) + rest)[0] == digits[0];
    }
  }

  lemma PrintedDigitsAreRead(size: nat, rest: string)
    requires rest == "" || !IsDigit(rest[0])
    ensures var body := Digits(size) + rest;
      body[..LeadingDigits(body)] == Digits(size) && Value(Digits(size)) == size
  {
    var digits := Digits(size);
    DigitsEnd(digits, rest);
    assert (digits + rest)[..|digits|] == digits;
    ValueOfDigits(size);
  }

  lemma {:induction false} DigitsEnd(digits: string, rest: string)
    requires (forall c <- digits :: IsDigit(c)) && (rest == "" || !IsDigit(rest[0]))
    ensures LeadingDigits(digits + rest) == |digits|
  {
    if digits == "" {
      assert digits + rest == rest;
    } else {
      assert (digits + rest)[1..] == digits[1..] + rest;
      DigitsEnd(digits[1..], rest);
    }
  }

  /** Without a digit in front, after a minus sign if the type has one, the variable is left as it was. */
  lemma NoDigitsNoChange(s: string, isSigned: bool, low: int, high: int, initial: int)
    requires var body := if isSigned && s != "" && s[0] == '-' then s[1..] else s; body == "" || !IsDigit(body[0])
    ensures FromChars(s, isSigned, low, high, initial) == initial
  {
  }

  /** Reading back what was printed gives the number, whatever the variable held. */
  lemma FromCharsUndoesToString(n: int, isSigned: bool, low: int, high: int, initial: int)
    requires low <= n <= high && (n < 0 ==> isSigned)
    ensures FromChars(ToString(n), isSigned, low, high, initial) == n
  {
    var s := ToString(n);
    var digits := Digits(if n < 0 then -n else n);
    assert n < 0 ==> s[1..] == digits;
    assert digits[0] != '-' by { assert IsDigit(digits[0]); }
    assert digits[..LeadingDigits(digits)] == digits;
    ValueOfDigits(if n < 0 then -n else n);
  }
}
