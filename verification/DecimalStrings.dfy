/** Decimal rendering of naturals, as `strconv.Itoa` and `%d` print them. */
module DecimalStrings {

  function Digit(d: nat): char
    requires d < 10
  {
    "0123456789"[d]
  }

  function Decimal(n: nat): string {
    if n < 10 then [Digit(n)] else Decimal(n / 10) + [Digit(n % 10)]
  }

  lemma {:induction false} DecimalIsInjective(a: nat, b: nat)
    requires Decimal(a) == Decimal(b)
    ensures a == b
  {
    DecimalEnds(a);
    DecimalEnds(b);
    if a >= 10 && b >= 10 {
      DecimalIsInjective(a / 10, b / 10);
    }
  }

  /** The number a string of decimal digits stands for. */
  function Value(s: string): nat
    requires forall i :: 0 <= i < |s| ==> '0' <= s[i] <= '9'
  {
    if s == [] then 0 else 10 * Value(s[..|s| - 1]) + (s[|s| - 1] - '0') as nat
  }

  /** Rendering is reading backwards: decimal digits, no leading zero, the number itself. */
  lemma {:induction false} DecimalStandsFor(n: nat)
    ensures var s := Decimal(n);
      (forall i :: 0 <= i < |s| ==> '0' <= s[i] <= '9') && s != [] && Value(s) == n && (n > 0 ==> s[0] != '0')
  {
    DigitStandsFor(n % 10);
    if n >= 10 {
      DecimalStandsFor(n / 10);
      OneMoreDigit(Decimal(n / 10), Digit(n % 10));
    } else {
      OneMoreDigit([], Digit(n));
    }
  }

  lemma DigitStandsFor(d: nat)
    requires d < 10
    ensures '0' <= Digit(d) <= '9' && (Digit(d) - '0') as nat == d && (d > 0 ==> Digit(d) != '0')
  {
  }

  lemma OneMoreDigit(s: string, c: char)
    requires (forall i :: 0 <= i < |s| ==> '0' <= s[i] <= '9') && '0' <= c <= '9'
    ensures (forall i :: 0 <= i < |s + [c]| ==> '0' <= (s + [c])[i] <= '9')
    ensures Value(s + [c]) == 10 * Value(s) + (c - '0') as nat
  {
    assert (s + [c])[..|s|] == s;
  }

  /** The last digit and what stands before it. */
  lemma DecimalEnds(n: nat)
    ensures var s := Decimal(n);
      && |s| > 0 && s[|s| - 1] == Digit(n % 10)
      && (n >= 10 <==> |s| > 1) && (n >= 10 ==> s[..|s| - 1] == Decimal(n / 10))
  {
  }
}
