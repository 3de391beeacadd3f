/** Decimal numerals and colon-separated identifiers. */
module Text {

  predicate IsDigit(c: char) { '0' <= c <= '9' }

  function DigitValue(c: char): (v: nat)
    requires IsDigit(c)
    ensures v < 10
  {
    c as int - '0' as int
  }

  function Digit(v: nat): (c: char)
    requires v < 10
    ensures IsDigit(c) && DigitValue(c) == v
  {
    ('0' as int + v) as char
  }

  function Numeral(n: nat): (s: string)
    ensures |s| > 0
  {
    if n < 10 then [Digit(n)] else Numeral(n / 10) + [Digit(n % 10)]
  }

  function Decimal(n: int): string {
    if n < 0 then "-" + Numeral(-n) else Numeral(n)
  }

  function Value(s: string): int {
    if s == "" then 0 else 10 * Value(s[..|s| - 1]) + (s[|s| - 1] as int - '0' as int)
  }

  lemma {:induction false} NumeralHasValue(n: nat)
    ensures Value(Numeral(n)) == n
    ensures forall i :: 0 <= i < |Numeral(n)| ==> IsDigit(Numeral(n)[i])
  {
    if n >= 10 {
      NumeralHasValue(n / 10);
      assert Numeral(n)[..|Numeral(n)| - 1] == Numeral(n / 10);
    } else {
      assert Value([Digit(n)][..0]) == 0;
    }
  }

  predicate NoColon(s: string) { ':' !in s }

  lemma DecimalIsInjective(m: int, n: int)
    ensures NoColon(Decimal(m))
    ensures Decimal(m) == Decimal(n) ==> m == n
  {
    hide Numeral, Value;
    NumeralHasValue(if m < 0 then -m else m);
    NumeralHasValue(if n < 0 then -n else n);
    if Decimal(m) == Decimal(n) {
      assert m < 0 <==> Decimal(m)[0] == '-';
      assert n < 0 <==> Decimal(n)[0] == '-';
      if m < 0 {
        assert Decimal(m)[1..] == Numeral(-m) && Decimal(n)[1..] == Numeral(-n);
      }
    }
  }

  /** A colon-free suffix is determined by the whole. */
  lemma LastColonSplits(a: string, x: string, b: string, y: string)
    requires NoColon(x) && NoColon(y)
    requires a + ":" + x == b + ":" + y
    ensures a == b && x == y
  {
    var s, t := a + ":" + x, b + ":" + y;
    assert forall i :: |a| < i < |s| ==> s[i] == x[i - |a| - 1];
    assert forall i :: |b| < i < |t| ==> t[i] == y[i - |b| - 1];
    assert s[|a|] == ':' && t[|b|] == ':' && s[|b|] == ':' && t[|a|] == ':';
    assert |a| == |b|;
    assert a == s[..|a|] && b == t[..|b|];
    assert x == s[|a| + 1..] && y == t[|b| + 1..];
  }
}
