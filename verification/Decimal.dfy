/** Decimal numbers as text. */
module Decimal {
  predicate IsDigit(c: char) {
    '0' <= c <= '9'
  }

  predicate IsNumber(s: string) {
    s != "" && forall c <- s :: IsDigit(c)
  }

  /** A number without leading zeros. */
  predicate IsCanonical(s: string) {
    IsNumber(s) && (|s| == 1 || s[0] != '0')
  }

  function Digit(d: nat): (c: char)
    requires d < 10
    ensures IsDigit(c)
  {
    ('0' as int + d) as char
  }

  function Dec(n: nat): string {
    if n < 10 then [Digit(n)] else Dec(n / 10) + [Digit(n % 10)]
  }

  function DigitValue(c: char): (d: nat)
    requires IsDigit(c)
    ensures d < 10 && Digit(d) == c
  {
    c as int - '0' as int
  }

  function Value(s: string): nat
    requires forall c <- s :: IsDigit(c)
  {
    if s == "" then 0
    else
      assert s[|s| - 1] in s;
      Value(s[..|s| - 1]) * 10 + DigitValue(s[|s| - 1])
  }

  /** Base ten: one more digit multiplies what comes before it by ten. */
  lemma ValueIsDecimal(s: string, c: char)
    requires (forall d <- s :: '0' <= d <= '9') && '0' <= c <= '9'
    ensures Value("") == 0 && Value(s + [c]) == 10 * Value(s) + (c as int - '0' as int)
  {
    assert (s + [c])[..|s|] == s;
  }

  lemma {:induction false} DecIsCanonical(n: nat)
    ensures IsCanonical(Dec(n)) && (n > 0 ==> Dec(n)[0] != '0')
  {
    if n >= 10 {
      DecIsCanonical(n / 10);
    }
  }

  lemma {:induction false} ValueOfDec(n: nat)
    ensures IsCanonical(Dec(n)) && Value(Dec(n)) == n
  {
    DecIsCanonical(n);
    if n >= 10 {
      ValueOfDec(n / 10);
      assert Dec(n)[..|Dec(n)| - 1] == Dec(n / 10);
    } else {
      assert Dec(n)[..0] == "";
    }
  }

  lemma {:induction false} DecOfValue(s: string)
    requires IsCanonical(s)
    ensures Dec(Value(s)) == s
    ensures Value(s) == 0 <==> s == "0"
    decreases |s|
  {
    assert s[|s| - 1] in s;
    var front, d := s[..|s| - 1], DigitValue(s[|s| - 1]);
    assert s == front + [s[|s| - 1]];
    if |s| > 1 {
      assert front[0] == s[0] && forall c <- front :: c in s;
      DecOfValue(front);
      assert Value(s) / 10 == Value(front) && Value(s) % 10 == d;
    } else {
      assert front == "";
    }
  }
}
