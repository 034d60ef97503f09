/** Decimal numerals: what strconv.Itoa and Python's str(int) print, and what they read back. */
module Numerals {
  import opened Basics

  predicate IsDigit(c: char) {
    '0' <= c <= '9'
  }

  predicate AllDigits(s: string) {
    forall i :: 0 <= i < |s| ==> IsDigit(s[i])
  }

  function DecimalValue(s: string): (n: nat)
    requires AllDigits(s)
  {
    if s == [] then 0 else 10 * DecimalValue(s[..|s| - 1]) + (s[|s| - 1] as int - '0' as int)
  }

  function Digit(d: int): char
    requires 0 <= d < 10
  {
    ('0' as int + d) as char
  }

  function NatText(n: nat): string {
    if n < 10 then [Digit(n)] else NatText(n / 10) + [Digit(n % 10)]
  }

  function IntText(n: int): string {
    if n < 0 then "-" + NatText(-n) else NatText(n)
  }

  /** Digits without a superfluous leading zero. */
  predicate IsCanonicalDigits(s: string) {
    s != [] && AllDigits(s) && (s[0] == '0' ==> |s| == 1)
  }

  lemma {:induction false} NatTextReadsBack(n: nat)
    ensures IsCanonicalDigits(NatText(n)) && DecimalValue(NatText(n)) == n
    ensures n > 0 ==> NatText(n)[0] != '0'
  {
    var s := NatText(n);
    if n < 10 {
      assert s[..0] == [];
    } else {
      NatTextReadsBack(n / 10);
      assert s[..|s| - 1] == NatText(n / 10);
    }
  }

  lemma {:induction false} DigitsReprint(s: string)
    requires IsCanonicalDigits(s)
    ensures NatText(DecimalValue(s)) == s
    ensures s[0] != '0' ==> DecimalValue(s) > 0
  {
    var init, last := s[..|s| - 1], s[|s| - 1];
    if init == [] {
      assert s == [last];
      assert DecimalValue(init) == 0;
    } else {
      DigitsReprint(init);
      assert s == init + [last];
    }
  }

  /** The integer written as -?digits. */
  function IntValue(s: string): Option<int> {
    var digits := if s != [] && s[0] == '-' then s[1..] else s;
    if digits == [] || !AllDigits(digits) then None
    else Some(if s[0] == '-' then -(DecimalValue(digits) as int) else DecimalValue(digits))
  }

  lemma IntTextReadsBack(n: int)
    ensures IntValue(IntText(n)) == Some(n)
  {
    if n < 0 {
      NatTextReadsBack(-n);
      assert IntText(n)[1..] == NatText(-n);
    } else {
      NatTextReadsBack(n);
    }
  }

  /** -?digits without a superfluous leading zero: the integers of JSON. */
  predicate IsIntegerText(s: string) {
    if s != [] && s[0] == '-' then IsCanonicalDigits(s[1..]) else IsCanonicalDigits(s)
  }

  /** Reading and printing an integer text changes exactly one of them. */
  lemma ReprintChangesOnlyMinusZero(s: string)
    requires IsIntegerText(s)
    ensures IntValue(s).Some?
    ensures IntText(IntValue(s).value) == s <==> s != "-0"
  {
    if s[0] == '-' {
      DigitsReprint(s[1..]);
      assert s == "-" + s[1..];
      if s[1..] == "0" {
        NatTextReadsBack(0);
      }
    } else {
      DigitsReprint(s);
    }
  }
}
