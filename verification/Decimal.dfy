/** Natural numbers as ASCII decimal text without leading zeros. */
module Decimal {
  predicate IsDigit(c: char) { '0' <= c <= '9' }

  predicate AllDigits(s: string) { forall i :: 0 <= i < |s| ==> IsDigit(s[i]) }

  /** The text `0` or `[1-9][0-9]*`. */
  predicate IsNumeral(s: string) {
    |s| > 0 && AllDigits(s) && (s[0] == '0' ==> |s| == 1)
  }

  function Render(n: nat): string {
    if n < 10 then [n as char + '0'] else Render(n / 10) + [(n % 10) as char + '0']
  }

  function Value(s: string): nat
    requires AllDigits(s)
  {
    if s == "" then 0
    else 10 * Value(s[..|s| - 1]) + (s[|s| - 1] - '0') as nat
  }

  lemma {:induction false} ValueOfRender(n: nat)
    ensures IsNumeral(Render(n)) && Value(Render(n)) == n
    ensures n > 0 ==> Render(n)[0] != '0'
  {
    if n >= 10 {
      ValueOfRender(n / 10);
      assert Render(n)[..|Render(n)| - 1] == Render(n / 10);
    } else {
      assert Render(n)[..0] == "";
    }
  }

  lemma {:induction false} RenderOfValue(s: string)
    requires IsNumeral(s)
    ensures Render(Value(s)) == s
  {
    var most, last := s[..|s| - 1], s[|s| - 1];
    assert s == most + [last];
    if most != "" {
      RenderOfValue(most);
      ValuePositive(most);
      assert Value(s) / 10 == Value(most) && Value(s) % 10 == (last - '0') as nat;
    }
  }

  lemma {:induction false} ValuePositive(s: string)
    requires |s| > 0 && AllDigits(s) && s[0] != '0'
    ensures Value(s) > 0
  {
    if |s| > 1 {
      ValuePositive(s[..|s| - 1]);
    }
  }

  lemma {:induction false} RenderInjective(a: nat, b: nat)
    requires Render(a) == Render(b)
    ensures a == b
  {
    ValueOfRender(a);
    ValueOfRender(b);
  }
}
