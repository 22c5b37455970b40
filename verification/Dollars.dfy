/** What a search cost, as a decimal. */
module Dollars {
  import opened Decimal
  import opened Text

  const MIN: int := -0x8000_0000_0000_0000

  type Int64 = n: int | MIN <= n < 0x8000_0000_0000_0000

  const MICROS := 1_000_000

  // ── formatCostDollars ──

  /** Negation in 64 bits: the least number is its own. */
  function Negated(n: Int64): Int64 {
    if n == MIN then n else -n
  }

  /** %d, and %06d, whose sign takes one of its places. */
  function Signed(n: int): string {
    if n < 0 then "-" + Digits(-n) else Digits(n)
  }

  function SignedPadded(n: int): string {
    if n < 0 then "-" + Padded(-n, if -n < 100_000 then 5 else 6) else Padded(n, 6)
  }

  /** Division as Go does it, toward zero. */
  function Quotient(n: int): int {
    if n < 0 then -(-n / MICROS) else n / MICROS
  }

  function Remainder(n: int): int {
    n - Quotient(n) * MICROS
  }

  function FormatCostDollars(micros: Int64): string {
    var m := if micros < 0 then Negated(micros) else micros;
    var s := TrimSuffix(TrimRight(Signed(Quotient(m)) + "." + SignedPadded(Remainder(m)), {'0'}), ".");
    "$" + (if micros < 0 then "-" + s else s)
  }

  /** A dollar amount of up to six decimals, and the micro-dollars it says. */
  predicate Says(s: string, micros: int, neg: bool, whole: string, frac: string) {
    && IsDigits(whole) && whole != "" && IsDigits(frac) && |frac| <= 6
    && s == "$" + (if neg then "-" else "") + whole + (if frac == "" then "" else "." + frac)
    && var n := Value(whole) * MICROS + Value(frac + Zeros(6 - |frac|));
       micros == if neg then -n else n
  }

  ghost predicate Denotes(s: string, micros: int) {
    exists neg, whole, frac :: Says(s, micros, neg, whole, frac)
  }

  lemma SplitAtZeros(p: string)
    requires IsDigits(p)
    ensures var t := TrimRight(p, {'0'}); IsDigits(t) && |t| <= |p| && p == t + Zeros(|p| - |t|)
  {
    TrimRightTakes(p, {'0'});
    var t := TrimRight(p, {'0'});
    assert p[|t|..] == Zeros(|p| - |t|);
  }

  lemma SuffixGone(s: string, p: string)
    ensures TrimSuffix(s + p, p) == s
  {
    assert (s + p)[|s|..] == p && (s + p)[..|s|] == s;
  }

  lemma SuffixStays(s: string, c: char)
    requires s != "" && s[|s| - 1] != c
    ensures TrimSuffix(s, [c]) == s
  {
    assert s[|s| - 1..] == [s[|s| - 1]];
  }

  lemma Regrouped(whole: string, t: string, z: string)
    ensures whole + "." + (t + z) == (whole + "." + t) + z && whole + "." + t == whole + ("." + t)
  {
  }

  /** The zeros go, and the point if nothing is left behind it. */
  lemma TrimmedForm(whole: string, frac: string)
    requires IsDigits(frac)
    ensures var t := TrimRight(frac, {'0'});
            TrimSuffix(TrimRight(whole + "." + frac, {'0'}), ".") == whole + (if t == "" then "" else "." + t)
  {
    hide TrimRight, TrimSuffix;
    var t := TrimRight(frac, {'0'});
    var z := Zeros(|frac| - |t|);
    TrimRightTakes(frac, {'0'});
    SplitAtZeros(frac);
    Regrouped(whole, t, z);
    var s := whole + "." + t;
    TrimRightOnly(s, z, {'0'});
    if t == "" {
      assert s == whole + ".";
      SuffixGone(whole, ".");
    } else {
      SuffixStays(s, '.');
    }
  }

  /** The figure for one that is not negative. */
  lemma FormOf(m: nat)
    ensures var s := TrimSuffix(TrimRight(Signed(Quotient(m)) + "." + SignedPadded(Remainder(m)), {'0'}), ".");
            var t := TrimRight(Padded(m % MICROS, 6), {'0'});
            s == Digits(m / MICROS) + (if t == "" then "" else "." + t)
  {
    hide TrimRight, TrimSuffix, Digits, Padded;
    assert Remainder(m) == m % MICROS;
    TrimmedForm(Digits(m / MICROS), Padded(m % MICROS, 6));
  }

  lemma Million()
    ensures Tens(6) == MICROS
  {
    assert Tens(3) == 1000;
  }

  lemma Amount(m: nat)
    ensures var t := TrimRight(Padded(m % MICROS, 6), {'0'});
            IsDigits(t) && |t| <= 6 && Value(Digits(m / MICROS)) * MICROS + Value(t + Zeros(6 - |t|)) == m
  {
    hide TrimRight, Digits, Padded, Value, Tens;
    Million();
    ValueOfDigits(m / MICROS);
    ValueOfPadded(m % MICROS, 6);
    SplitAtZeros(Padded(m % MICROS, 6));
  }

  /** The figure is exact, to the micro-dollar, except the one a 64-bit number cannot negate. */
  lemma CostIsExact(micros: Int64)
    ensures Denotes(FormatCostDollars(micros), micros) <==> micros != MIN
  {
    hide TrimRight, TrimSuffix, Digits, Padded, Value, Signed, SignedPadded, Quotient, Remainder;
    if micros != MIN {
      var neg, m := micros < 0, if micros < 0 then -micros else micros;
      FormOf(m);
      Amount(m);
      var t := TrimRight(Padded(m % MICROS, 6), {'0'});
      assert Says(FormatCostDollars(micros), micros, neg, Digits(m / MICROS), t);
    } else {
      var s := FormatCostDollars(MIN);
      LeastStart();
      forall neg, whole, frac
        ensures !Says(s, MIN, neg, whole, frac)
      {
        if IsDigits(whole) && whole != "" &&
          s == "$" + (if neg then "-" else "") + whole + (if frac == "" then "" else "." + frac) {
          WholeFirst(neg, whole, if frac == "" then "" else "." + frac);
        }
      }
    }
  }

  lemma WholeFirst(neg: bool, whole: string, tail: string)
    requires whole != ""
    ensures ("$" + (if neg then "-" else "") + whole + tail)[if neg then 2 else 1] == whole[0]
  {
  }

  lemma TrimmedStart(s: string)
    requires s != "" && s[0] == '-'
    ensures var t := TrimSuffix(TrimRight(s, {'0'}), "."); t != "" && t[0] == '-'
  {
    TrimRightTakes(s, {'0'});
  }

  lemma LeastStart()
    ensures |FormatCostDollars(MIN)| > 2 && FormatCostDollars(MIN)[1] == '-' && FormatCostDollars(MIN)[2] == '-'
  {
    hide TrimRight, TrimSuffix, Padded, Digits;
    assert Signed(Quotient(MIN)) == "-" + Digits(-Quotient(MIN));
    TrimmedStart(Signed(Quotient(MIN)) + "." + SignedPadded(Remainder(MIN)));
  }

  /** And no amount that says as much is shorter. */
  lemma CostIsShortest(micros: Int64, s: string)
    requires micros != MIN && Denotes(s, micros)
    ensures |FormatCostDollars(micros)| <= |s|
  {
    hide TrimRight, TrimSuffix, Digits, Padded, Value, Tens, Signed, SignedPadded, Quotient, Remainder;
    var neg, whole, frac :| Says(s, micros, neg, whole, frac);
    var m := if micros < 0 then -micros else micros;
    FormOf(m);
    FewestFor(m, whole, frac);
    assert |s| == 1 + (if neg then 1 else 0) + |whole| + (if frac == "" then 0 else 1 + |frac|);
    assert micros < 0 ==> neg;
  }

  lemma MicroParts(m: nat, whole: nat, six: nat)
    requires m == whole * MICROS + six && six < MICROS
    ensures m / MICROS == whole && m % MICROS == six
  {
  }

  lemma FewestFor(m: nat, whole: string, frac: string)
    requires IsDigits(whole) && whole != "" && IsDigits(frac) && |frac| <= 6
    requires m == Value(whole) * MICROS + Value(frac + Zeros(6 - |frac|))
    ensures |Digits(m / MICROS)| <= |whole| && |TrimRight(Padded(m % MICROS, 6), {'0'})| <= |frac|
  {
    hide TrimRight, Digits, Padded, Value, Tens;
    var six := frac + Zeros(6 - |frac|);
    Million();
    PaddedOfValue(six);
    MicroParts(m, Value(whole), Value(six));
    DigitsAreFewest(whole);
    TrimAtMost(frac, Zeros(6 - |frac|));
  }

  lemma TrimAtMost(frac: string, z: string)
    requires forall k :: 0 <= k < |z| ==> z[k] == '0'
    ensures |TrimRight(frac + z, {'0'})| <= |frac|
  {
    var t := TrimRight(frac + z, {'0'});
    TrimRightTakes(frac + z, {'0'});
    assert forall k :: |frac| <= k < |frac + z| ==> (frac + z)[k] == '0';
    assert t != "" ==> (frac + z)[|t| - 1] == t[|t| - 1];
  }

  /** What is printed for the one amount that cannot be negated: signs of every part. */
  lemma LeastCost()
    ensures FormatCostDollars(MIN) == "$--" + Digits(9_223_372_036_854) + ".-" + Padded(775_808, 6)
  {
    var a, b := Digits(9_223_372_036_854), Padded(775_808, 6);
    assert Quotient(MIN) == -9_223_372_036_854 && Remainder(MIN) == -775_808;
    assert b[5] == '8';
    hide Digits, Padded, Quotient, Remainder;
    LeastForm(a, b);
  }

  lemma LeastForm(a: string, b: string)
    requires b != "" && '0' < b[|b| - 1]
    ensures var s := "-" + a + "." + ("-" + b);
            TrimSuffix(TrimRight(s, {'0'}), ".") == s && "$" + ("-" + s) == "$--" + a + ".-" + b
  {
    var s := "-" + a + "." + ("-" + b);
    assert s[|s| - 1] == b[|b| - 1];
    SuffixStaysOff(s);
    assert "$" + ("-" + s) == "$--" + a + ".-" + b;
  }

  lemma SuffixStaysOff(s: string)
    requires s != "" && '0' < s[|s| - 1]
    ensures TrimSuffix(TrimRight(s, {'0'}), ".") == s
  {
    SuffixStays(s, '.');
  }
}
