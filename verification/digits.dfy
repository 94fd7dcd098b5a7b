/** Decimal numerals: `int(s)` on a string of ASCII digits and `str(n)` on a
    natural number. */
module Digits {
  import opened Text

  /** The value of one ASCII digit. */
  function DigitValue(c: char): (v: nat)
    requires IsDigit(c)
    ensures v < 10
  {
    c as int - '0' as int
  }

  /** The digit character for a value below ten. */
  function DigitChar(v: nat): (c: char)
    requires v < 10
    ensures IsDigit(c) && DigitValue(c) == v
  {
    ('0' as int + v) as char
  }

  /** Every character is an ASCII digit. */
  predicate AllDigits(s: string) {
    forall i :: 0 <= i < |s| ==> IsDigit(s[i])
  }

  /** `int(s)` for a string of ASCII digits. */
  function Value(s: string): nat
    requires AllDigits(s)
    decreases |s|
  {
    if s == [] then 0 else Value(s[..|s| - 1]) * 10 + DigitValue(s[|s| - 1])
  }

  /** `str(n)`: the shortest decimal numeral of `n`. */
  function NatToString(n: nat): (s: string)
    ensures AllDigits(s) && s != []
    ensures |s| > 1 ==> s[0] != '0'
    decreases n
  {
    if n < 10 then [DigitChar(n)]
    else
      var s := NatToString(n / 10) + [DigitChar(n % 10)];
      assert s[0] == NatToString(n / 10)[0];
      s
  }

  /** Reading back a printed number gives the number. */
  lemma {:induction false} ValueOfNatToString(n: nat)
    ensures Value(NatToString(n)) == n
    decreases n
  {
    if n >= 10 {
      var s := NatToString(n);
      ValueOfNatToString(n / 10);
      assert s[..|s| - 1] == NatToString(n / 10);
    }
  }

  /** Printing the value of a numeral without leading zeros gives the
      numeral back. */
  lemma {:induction false} NatToStringOfValue(s: string)
    requires AllDigits(s) && s != []
    requires |s| > 1 ==> s[0] != '0'
    ensures NatToString(Value(s)) == s
    decreases |s|
  {
    var p := s[..|s| - 1];
    if p == [] {
      assert s == [s[0]];
    } else {
      assert p[0] == s[0];
      ValuePositive(p);
      NatToStringOfValue(p);
      assert Value(s) / 10 == Value(p);
      assert Value(s) % 10 == DigitValue(s[|s| - 1]);
      assert s == p + [s[|s| - 1]];
    }
  }

  /** A numeral that does not start with `0` denotes a positive number. */
  lemma {:induction false} ValuePositive(s: string)
    requires AllDigits(s) && s != [] && s[0] != '0'
    ensures Value(s) > 0
    decreases |s|
  {
    if |s| > 1 {
      var p := s[..|s| - 1];
      assert p[0] == s[0];
      ValuePositive(p);
    }
  }
}
