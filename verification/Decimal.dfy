/** Numbers in decimal, as they are printed. */
module Decimal {

  predicate IsDigits(s: string) {
    forall k :: 0 <= k < |s| ==> '0' <= s[k] <= '9'
  }

  function DigitOf(n: nat): char
    requires n < 10
  {
    (('0' as int) + n) as char
  }

  /** The number some digits write. */
  function Value(s: string): nat
    requires IsDigits(s)
  {
    if s == "" then 0 else Value(s[..|s| - 1]) * 10 + (s[|s| - 1] as int - '0' as int)
  }

  /** %d, of a number that is not negative. */
  function Digits(n: nat): (s: string)
    ensures s != "" && IsDigits(s)
  {
    if n < 10 then [DigitOf(n)] else Digits(n / 10) + [DigitOf(n % 10)]
  }

  /** %0<d>d, of a number it is wide enough for. */
  function Padded(n: nat, d: nat): (s: string)
    ensures |s| == d && IsDigits(s)
  {
    if d == 0 then "" else Padded(n / 10, d - 1) + [DigitOf(n % 10)]
  }

  function Zeros(d: nat): (s: string)
    ensures |s| == d && IsDigits(s) && forall k :: 0 <= k < d ==> s[k] == '0'
  {
    seq(d, _ => '0')
  }

  lemma ValueAppend(s: string, n: nat)
    requires IsDigits(s) && n < 10
    ensures Value(s + [DigitOf(n)]) == Value(s) * 10 + n
  {
    var t := s + [DigitOf(n)];
    assert t[..|t| - 1] == s;
  }

  lemma {:induction false} ValueOfDigits(n: nat)
    ensures Value(Digits(n)) == n
  {
    if n < 10 {
      ValueAppend("", n);
      assert "" + [DigitOf(n)] == Digits(n);
    } else {
      ValueOfDigits(n / 10);
      ValueAppend(Digits(n / 10), n % 10);
    }
  }

  /** No digits write a number in fewer. */
  lemma {:induction false} DigitsAreFewest(s: string)
    requires s != "" && IsDigits(s)
    ensures |Digits(Value(s))| <= |s|
  {
    if |s| > 1 {
      DigitsAreFewest(s[..|s| - 1]);
    }
  }

  function Tens(d: nat): nat {
    if d == 0 then 1 else Tens(d - 1) * 10
  }

  lemma {:induction false} ValueOfPadded(n: nat, d: nat)
    requires n < Tens(d)
    ensures Value(Padded(n, d)) == n
  {
    if d > 0 {
      ValueOfPadded(n / 10, d - 1);
      ValueAppend(Padded(n / 10, d - 1), n % 10);
    }
  }

  lemma LastDigit(n: nat, d: nat)
    requires d < 10
    ensures (n * 10 + d) / 10 == n && (n * 10 + d) % 10 == d
  {
  }

  lemma {:induction false} PaddedOfValue(s: string)
    requires IsDigits(s)
    ensures Padded(Value(s), |s|) == s && Value(s) < Tens(|s|)
  {
    if s != "" {
      var d: nat := s[|s| - 1] as int - '0' as int;
      PaddedOfValue(s[..|s| - 1]);
      LastDigit(Value(s[..|s| - 1]), d);
      assert DigitOf(d) == s[|s| - 1];
      assert s == s[..|s| - 1] + [s[|s| - 1]];
    }
  }
}
