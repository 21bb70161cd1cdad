/** Decimal printing and parsing of integers, as `std::to_string` and `std::stoi` do them. */
module Decimal {

  import opened Basics

  const INT_MIN: int := -0x8000_0000
  const INT_MAX: int := 0x7FFF_FFFF

  predicate IsDigit(c: char) {
    '0' <= c <= '9'
  }

  predicate IsSpace(c: char) {
    c == ' ' || '\t' as int <= c as int <= '\r' as int
  }

  predicate AllDigits(s: string) {
    forall i :: 0 <= i < |s| ==> IsDigit(s[i])
  }

  function Digit(d: nat): (c: char)
    requires d < 10
    ensures IsDigit(c)
  {
    ('0' as int + d) as char
  }

  function Digits(n: nat): (s: string)
    ensures s != [] && AllDigits(s)
  {
    if n < 10 then [Digit(n)] else Digits(n / 10) + [Digit(n % 10)]
  }

  function Print(n: int): (s: string)
    ensures s != []
  {
    if n < 0 then "-" + Digits(-n) else Digits(n)
  }

  function Value(s: string): nat
    requires AllDigits(s)
  {
    if s == [] then 0 else Value(s[..|s| - 1]) * 10 + (s[|s| - 1] as int - '0' as int)
  }

  function SkipSpace(s: string): string {
    if s != [] && IsSpace(s[0]) then SkipSpace(s[1..]) else s
  }

  function DigitPrefix(s: string): (d: string)
    ensures AllDigits(d)
  {
    if s != [] && IsDigit(s[0]) then [s[0]] + DigitPrefix(s[1..]) else []
  }

  /** None stands for the exceptions: no digits, or out of the range of int. */
  function Stoi(s: string): Option<int> {
    var t := SkipSpace(s);
    var signed := t != [] && (t[0] == '-' || t[0] == '+');
    var d := DigitPrefix(if signed then t[1..] else t);
    if d == [] then None
    else
      var v: int := if signed && t[0] == '-' then 0 - Value(d) else Value(d);
      if INT_MIN <= v <= INT_MAX then Some(v) else None
  }

  lemma {:induction false} ValueOfDigits(n: nat)
    ensures Value(Digits(n)) == n
  {
    if n >= 10 {
      ValueOfDigits(n / 10);
      assert Digits(n)[..|Digits(n)| - 1] == Digits(n / 10);
    }
  }

  lemma {:induction false} PrefixOfDigits(s: string)
    requires AllDigits(s)
    ensures DigitPrefix(s) == s
  {
    if s != [] {
      PrefixOfDigits(s[1..]);
    }
  }

  /** Parsing undoes printing on every int. */
  lemma StoiPrint(n: int)
    requires INT_MIN <= n <= INT_MAX
    ensures Stoi(Print(n)) == Some(n)
  {
    StoiPrinted(n, []);
    assert Print(n) + [] == Print(n);
  }

  /** Printing is injective. */
  lemma PrintInjective(m: nat, n: nat)
    requires Print(m) == Print(n)
    ensures m == n
  {
    ValueOfDigits(m);
    ValueOfDigits(n);
  }

  predicate AllSpaces(s: string) {
    forall i :: 0 <= i < |s| ==> IsSpace(s[i])
  }

  lemma {:induction false} SpacesSkipped(spaces: string, s: string)
    requires AllSpaces(spaces) && (s == [] || !IsSpace(s[0]))
    ensures SkipSpace(spaces + s) == s
  {
    if spaces == [] {
      assert spaces + s == s;
    } else {
      assert (spaces + s)[1..] == spaces[1..] + s;
      SpacesSkipped(spaces[1..], s);
    }
  }

  lemma {:induction false} PrefixStops(digits: string, tail: string)
    requires AllDigits(digits) && (tail == [] || !IsDigit(tail[0]))
    ensures DigitPrefix(digits + tail) == digits
  {
    if digits == [] {
      assert digits + tail == tail;
    } else {
      assert (digits + tail)[1..] == digits[1..] + tail;
      PrefixStops(digits[1..], tail);
    }
  }

  lemma StoiAfterSpaces(spaces: string, s: string)
    requires AllSpaces(spaces) && s != [] && !IsSpace(s[0])
    ensures Stoi(spaces + s) == Stoi(s)
  {
    SpacesSkipped(spaces, s);
    SpacesSkipped([], s);
    assert [] + s == s;
  }

  lemma StoiUnsigned(digits: string, tail: string)
    requires AllDigits(digits) && digits != [] && (tail == [] || !IsDigit(tail[0]))
    ensures Stoi(digits + tail) == if Value(digits) <= INT_MAX then Some(Value(digits)) else None
  {
    var s := digits + tail;
    assert s[0] == digits[0] && IsDigit(s[0]);
    assert SkipSpace(s) == s;
    PrefixStops(digits, tail);
  }

  lemma StoiNegative(digits: string, tail: string)
    requires AllDigits(digits) && digits != [] && (tail == [] || !IsDigit(tail[0]))
    ensures var v: int := 0 - Value(digits); Stoi("-" + (digits + tail)) == if INT_MIN <= v then Some(v) else None
  {
    var s := "-" + (digits + tail);
    assert s[0] == '-' && s[1..] == digits + tail;
    assert SkipSpace(s) == s;
    PrefixStops(digits, tail);
  }

  lemma StoiPrintedNegative(n: int, tail: string)
    requires n < 0 && (tail == [] || !IsDigit(tail[0]))
    ensures Stoi(Print(n) + tail) == if INT_MIN <= n then Some(n) else None
  {
    ValueOfDigits(-n);
    assert Print(n) + tail == "-" + (Digits(-n) + tail);
    StoiNegative(Digits(-n), tail);
  }

  lemma StoiPrintedNatural(n: nat, tail: string)
    requires tail == [] || !IsDigit(tail[0])
    ensures Stoi(Print(n) + tail) == if n <= INT_MAX then Some(n) else None
  {
    ValueOfDigits(n);
    StoiUnsigned(Digits(n), tail);
  }

  lemma StoiPrinted(n: int, tail: string)
    requires tail == [] || !IsDigit(tail[0])
    ensures Stoi(Print(n) + tail) == if INT_MIN <= n <= INT_MAX then Some(n) else None
  {
    if n < 0 {
      StoiPrintedNegative(n, tail);
    } else {
      StoiPrintedNatural(n, tail);
    }
  }

  lemma PrintNoSpace(n: int)
    ensures !IsSpace(Print(n)[0])
  {
    assert IsDigit(Digits(if n < 0 then -n else n)[0]);
  }

  /** Parsing skips leading spaces, reads the longest number, ignores what follows it, and fails exactly
      when that number does not fit an int. */
  lemma StoiReads(spaces: string, n: int, tail: string)
    requires AllSpaces(spaces) && (tail == [] || !IsDigit(tail[0]))
    ensures Stoi(spaces + (Print(n) + tail)) == if INT_MIN <= n <= INT_MAX then Some(n) else None
  {
    var s := Print(n) + tail;
    PrintNoSpace(n);
    assert Stoi(spaces + s) == Stoi(s) by {
      StoiAfterSpaces(spaces, s);
    }
    StoiPrinted(n, tail);
  }

  /** A plus sign before a number is read over. */
  lemma StoiReadsPlus(spaces: string, n: nat, tail: string)
    requires AllSpaces(spaces) && (tail == [] || !IsDigit(tail[0]))
    ensures Stoi(spaces + ("+" + (Print(n) + tail))) == if n <= INT_MAX then Some(n) else None
  {
    var s := "+" + (Print(n) + tail);
    StoiAfterSpaces(spaces, s);
    assert s[1..] == Digits(n) + tail && SkipSpace(s) == s;
    PrefixStops(Digits(n), tail);
    ValueOfDigits(n);
  }

  /** A text with no number at its front is refused. */
  lemma StoiRefuses(s: string)
    requires s == [] || (!IsSpace(s[0]) && !IsDigit(s[0]) && s[0] != '-' && s[0] != '+')
    ensures Stoi(s) == None
  {
  }

  /** Numbers are printed with their most significant digit first. */
  lemma PrintedForm()
    ensures Print(0) == "0" && Print(8080) == "8080" && Print(-105) == "-105"
  {
    assert Digits(8) == "8" && Digits(80) == "80" && Digits(808) == "808" && Digits(8080) == "8080";
    assert Digits(1) == "1" && Digits(10) == "10" && Digits(105) == "105";
  }
}
