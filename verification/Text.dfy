/** Text shared by the modules: decimal numbers as Python prints them, and the order of strings. */
module Text {

  function Digit(d: nat): char
    requires d < 10
  {
    '0' + d as char
  }

  /** str(n) */
  function Decimal(n: nat): string {
    if n < 10 then [Digit(n)] else Decimal(n / 10) + [Digit(n % 10)]
  }

  /** int(text) */
  function ReadDecimal(t: string): int {
    if t == [] then 0
    else ReadDecimal(t[..|t| - 1]) * 10 + (t[|t| - 1] as int - '0' as int)
  }

  predicate DigitsOnly(t: string) {
    forall i :: 0 <= i < |t| ==> '0' <= t[i] <= '9'
  }

  lemma {:induction false} DecimalRoundTrip(n: nat)
    ensures ReadDecimal(Decimal(n)) == n && DigitsOnly(Decimal(n)) && |Decimal(n)| > 0
  {
    if n >= 10 {
      DecimalRoundTrip(n / 10);
      assert Decimal(n)[..|Decimal(n)| - 1] == Decimal(n / 10);
    } else {
      assert Decimal(n)[..0] == [];
    }
  }

  lemma DecimalInjective(a: nat, b: nat)
    requires Decimal(a) == Decimal(b)
    ensures a == b
  {
    DecimalRoundTrip(a);
    DecimalRoundTrip(b);
  }

  predicate NoColon(t: string) {
    forall i :: 0 <= i < |t| ==> t[i] != ':'
  }

  /** The text before the first colon is determined. */
  lemma FirstColon(x: string, y: string, rest: string)
    requires NoColon(x) && NoColon(y) && x + ":" <= y + ":" + rest
    ensures x == y
  {
    var whole := y + ":" + rest;
    assert whole[|x|] == (x + ":")[|x|] == ':' && whole[|y|] == ':';
    assert forall i :: 0 <= i < |x| ==> whole[i] == (x + ":")[i] == x[i] != ':';
    assert forall i :: 0 <= i < |y| ==> whole[i] == y[i] != ':';
    assert |x| == |y|;
  }

  /** A number closed by a colon selects exactly itself, so "7:" is no prefix of "71:...". */
  lemma NumberPrefix(a: nat, b: nat, rest: string)
    ensures Decimal(a) + ":" <= Decimal(b) + ":" + rest <==> a == b
  {
    DecimalRoundTrip(a);
    DecimalRoundTrip(b);
    hide Decimal, ReadDecimal;
    if Decimal(a) + ":" <= Decimal(b) + ":" + rest {
      FirstColon(Decimal(a), Decimal(b), rest);
      DecimalInjective(a, b);
    }
  }

  // ------------------------------------------------------------------ the order of strings

  /** str < str */
  predicate Before(a: string, b: string) {
    b != [] && (a == [] || a[0] < b[0] || (a[0] == b[0] && Before(a[1..], b[1..])))
  }

  lemma {:induction false} BeforeTotal(a: string, b: string)
    ensures a == b || Before(a, b) || Before(b, a)
    ensures !(Before(a, b) && Before(b, a)) && !Before(a, a)
  {
    if a != [] {
      BeforeTotal(a[1..], a[1..]);
      if b != [] {
        BeforeTotal(a[1..], b[1..]);
        assert a == [a[0]] + a[1..] && b == [b[0]] + b[1..];
      }
    }
  }

  /** Where two texts first differ the smaller character comes first, and a text comes before its extensions. */
  lemma {:induction false} BeforeAtDifference(common: string, x: char, y: char, a: string, b: string)
    requires x < y
    ensures Before(common + [x] + a, common + [y] + b) && Before(common, common + [x] + a)
  {
    if common != [] {
      BeforeAtDifference(common[1..], x, y, a, b);
      assert (common + [x] + a)[1..] == common[1..] + [x] + a && (common + [y] + b)[1..] == common[1..] + [y] + b;
    } else {
      assert common + [x] + a == [x] + a && common + [y] + b == [y] + b;
    }
  }

  lemma {:induction false} BeforeTransitive(a: string, b: string, c: string)
    requires Before(a, b) && Before(b, c)
    ensures Before(a, c)
  {
    if a != [] && a[0] == b[0] == c[0] {
      BeforeTransitive(a[1..], b[1..], c[1..]);
    }
  }
}
