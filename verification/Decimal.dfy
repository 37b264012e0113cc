/** strconv.FormatInt and strconv.ParseInt in base ten for int64. */
module Decimal {
  import opened Options
  import opened Int64

  predicate IsDigit(c: char) {
    '0' <= c <= '9'
  }

  predicate AllDigits(s: string) {
    forall i :: 0 <= i < |s| ==> IsDigit(s[i])
  }

  function DigitChar(d: nat): char
    requires d < 10
  {
    '0' + d as char
  }

  function DigitValue(c: char): nat
    requires IsDigit(c)
  {
    c as int - '0' as int
  }

  function FormatNat(n: nat): string {
    if n < 10 then [DigitChar(n)] else FormatNat(n / 10) + [DigitChar(n % 10)]
  }

  function FormatInt(x: int): string {
    if x < 0 then "-" + FormatNat(-x) else FormatNat(x)
  }

  function Value(s: string): nat
    requires AllDigits(s)
  {
    if s == "" then 0 else 10 * Value(s[..|s| - 1]) + DigitValue(s[|s| - 1])
  }

  predicate Signed(s: string) {
    s != "" && (s[0] == '-' || s[0] == '+')
  }

  /** The digits of a numeral that may carry one leading sign of either kind. */
  function Magnitude(s: string): string {
    if Signed(s) then s[1..] else s
  }

  /** A numeral of any length: an optional sign, then at least one digit. */
  predicate IsNumeral(s: string) {
    Magnitude(s) != "" && AllDigits(Magnitude(s))
  }

  /** The integer a numeral stands for, however large. */
  function NumeralValue(s: string): int
    requires IsNumeral(s)
  {
    var n: int := Value(Magnitude(s));
    if s[0] == '-' then -n else n
  }

  /** None stands for both a syntax error and a value out of range. */
  function ParseInt(s: string): (r: Option<int>)
    ensures r.Some? ==> Fits(r.value)
  {
    if IsNumeral(s) && Fits(NumeralValue(s)) then Some(NumeralValue(s)) else None
  }

  lemma {:induction false} FormatNatValue(n: nat)
    ensures FormatNat(n) != "" && AllDigits(FormatNat(n)) && Value(FormatNat(n)) == n
  {
    var s := FormatNat(n);
    if n < 10 {
      assert s[..0] == "";
    } else {
      FormatNatValue(n / 10);
      assert s[..|s| - 1] == FormatNat(n / 10);
    }
  }

  /** What FormatInt writes is a numeral for the number, of any size. */
  lemma FormatIntIsNumeral(x: int)
    ensures IsNumeral(FormatInt(x)) && NumeralValue(FormatInt(x)) == x
  {
    var s := FormatInt(x);
    if x < 0 {
      FormatNatValue(-x);
      assert s[1..] == FormatNat(-x);
      assert Magnitude(s) == FormatNat(-x);
    } else {
      FormatNatValue(x);
      assert IsDigit(s[0]);
      assert Magnitude(s) == s;
    }
  }

  /** The ten digits in order. */
  lemma DigitsInOrder(d: nat)
    requires d < 10
    ensures DigitChar(d) == "0123456789"[d] && DigitValue("0123456789"[d]) == d
    ensures IsDigit(DigitChar(d))
  {}

  lemma {:induction false} FormatNatLeads(n: nat)
    ensures FormatNat(n) != "" && (FormatNat(n)[0] == '0' <==> n == 0)
  {
    if n >= 10 {
      FormatNatLeads(n / 10);
      assert FormatNat(n)[0] == FormatNat(n / 10)[0];
    }
  }

  /** And it is the plain one: a minus sign exactly for a negative number, never a
      plus, and no leading zero but zero's own. */
  lemma FormatIntIsPlain(x: int)
    ensures var s := FormatInt(x);
      && s != "" && (s[0] == '-' <==> x < 0) && s[0] != '+'
      && (s[0] == '0' <==> x == 0) && (x < 0 ==> |s| > 1 && s[1] != '0')
  {
    FormatNatLeads(if x < 0 then -x else x);
    FormatNatValue(if x < 0 then -x else x);
    var n := FormatNat(if x < 0 then -x else x);
    assert IsDigit(n[0]);
  }

  /** Parsing inverts formatting on every int64. */
  lemma ParseIntOfFormatInt(x: int)
    requires Fits(x)
    ensures ParseInt(FormatInt(x)) == Some(x)
  {
    FormatIntIsNumeral(x);
  }

  /** A numeral starts with a digit or a sign and ends with a digit. */
  lemma NumeralEnds(s: string)
    requires IsNumeral(s)
    ensures s != "" && IsDigit(s[|s| - 1])
    ensures IsDigit(s[0]) || s[0] == '-' || s[0] == '+'
  {
    var digits := Magnitude(s);
    assert s[|s| - 1] == digits[|digits| - 1];
  }
}
