/**
 * The navigation-bar title "<count> Notes", built by Swift string
 * interpolation of a non-negative `Int`, and the decimal notation it relies on.
 */
module NavigationTitle {

  predicate IsDigit(c: char) {
    '0' <= c <= '9'
  }

  predicate AllDigits(s: string) {
    forall k :: 0 <= k < |s| ==> IsDigit(s[k])
  }

  /** The decimal digit character for `d`. */
  function DigitChar(d: nat): (c: char)
    requires d < 10
    ensures IsDigit(c) && c as int - '0' as int == d
  {
    ('0' as int + d) as char
  }

  /** The value of a digit character. */
  function DigitValue(c: char): (d: nat)
    requires IsDigit(c)
    ensures d < 10 && DigitChar(d) == c
  {
    c as int - '0' as int
  }

  /** Decimal notation of `n`, as `"\(n)"` writes it: digits only, no leading zero. */
  function Decimal(n: nat): (s: string)
    ensures |s| >= 1 && AllDigits(s)
    ensures s[0] != '0' || s == "0"
    ensures s == "0" <==> n == 0
  {
    if n < 10 then [DigitChar(n)] else Decimal(n / 10) + [DigitChar(n % 10)]
  }

  /** The number a string of decimal digits denotes. */
  function DecimalValue(s: string): (n: nat)
    requires AllDigits(s)
  {
    if |s| == 0 then 0 else DecimalValue(s[..|s| - 1]) * 10 + DigitValue(s[|s| - 1])
  }

  /** Reading back the decimal notation of `n` gives `n`. */
  lemma {:induction false} DecimalRoundTrip(n: nat)
    ensures DecimalValue(Decimal(n)) == n
  {
    if n >= 10 {
      var s := Decimal(n);
      assert s[..|s| - 1] == Decimal(n / 10);
      DecimalRoundTrip(n / 10);
    }
  }

  /** Distinct counts have distinct decimal notations. */
  lemma {:induction false} DecimalInjective(m: nat, n: nat)
    ensures Decimal(m) == Decimal(n) ==> m == n
  {
    if Decimal(m) == Decimal(n) {
      DecimalRoundTrip(m);
      DecimalRoundTrip(n);
    }
  }

  const Suffix: string := " Notes"

  /**
   * `"\(count) Notes"`: the title ends in " Notes" and what precedes it is the
   * decimal notation of `count` (digits, no leading zero), which reads back
   * as `count`.
   */
  function Title(count: nat): (t: string)
    ensures |t| > |Suffix| && t[|t| - |Suffix|..] == Suffix
    ensures t[..|t| - |Suffix|] == Decimal(count)
    ensures AllDigits(t[..|t| - |Suffix|]) && DecimalValue(t[..|t| - |Suffix|]) == count
  {
    DecimalRoundTrip(count);
    var t := Decimal(count) + Suffix;
    assert t[..|t| - |Suffix|] == Decimal(count);
    t
  }
}
