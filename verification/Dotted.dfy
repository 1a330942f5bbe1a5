// IPv4 addresses and the dotted-quad strings that stand for them in every table.
module Dotted {
  import opened Bytes

  datatype Ip4 = Ip4(a: Byte, b: Byte, c: Byte, d: Byte)

  const DIGITS := "0123456789"

  function Decimal(n: nat): (s: string)
    ensures s != []
  {
    if n < 10 then [DIGITS[n]] else Decimal(n / 10) + [DIGITS[n % 10]]
  }

  function Render(ip: Ip4): string {
    Decimal(ip.a) + ("." + (Decimal(ip.b) + ("." + (Decimal(ip.c) + ("." + Decimal(ip.d))))))
  }

  lemma DigitsDiffer(i: nat, j: nat)
    requires i < 10 && j < 10
    ensures DIGITS[i] == DIGITS[j] <==> i == j
    ensures DIGITS[i] != '.'
  {
  }

  lemma {:induction false} DecimalInjective(m: nat, n: nat)
    ensures Decimal(m) == Decimal(n) ==> m == n
  {
    if Decimal(m) == Decimal(n) {
      DigitsDiffer(m % 10, n % 10);
      if m >= 10 && n >= 10 {
        assert Decimal(m)[..|Decimal(m)| - 1] == Decimal(m / 10);
        assert Decimal(n)[..|Decimal(n)| - 1] == Decimal(n / 10);
        DecimalInjective(m / 10, n / 10);
      }
    }
  }

  lemma {:induction false} DecimalHasNoDot(n: nat)
    ensures '.' !in Decimal(n)
  {
    DigitsDiffer(n % 10, 0);
    if n >= 10 { DecimalHasNoDot(n / 10); }
  }

  // Cutting at the first dot is unambiguous.
  lemma CutAtDot(p: string, x: string, q: string, y: string)
    requires '.' !in p && '.' !in q && p + ("." + x) == q + ("." + y)
    ensures p == q && x == y
  {
    var s := p + ("." + x);
    assert s[|p|] == '.' && s[|q|] == '.';
    assert forall i :: 0 <= i < |p| ==> s[i] == p[i] && s[i] in p;
    assert forall i :: 0 <= i < |q| ==> s[i] == q[i] && s[i] in q;
    assert s[..|p|] == p && s[..|q|] == q;
    assert s[|p| + 1..] == x && s[|q| + 1..] == y;
  }

  // Two addresses never share a string.
  lemma RenderInjective(x: Ip4, y: Ip4)
    ensures Render(x) == Render(y) <==> x == y
  {
    if Render(x) == Render(y) {
      DecimalHasNoDot(x.a); DecimalHasNoDot(y.a);
      DecimalHasNoDot(x.b); DecimalHasNoDot(y.b);
      DecimalHasNoDot(x.c); DecimalHasNoDot(y.c);
      CutAtDot(Decimal(x.a), Decimal(x.b) + ("." + (Decimal(x.c) + ("." + Decimal(x.d)))),
               Decimal(y.a), Decimal(y.b) + ("." + (Decimal(y.c) + ("." + Decimal(y.d)))));
      CutAtDot(Decimal(x.b), Decimal(x.c) + ("." + Decimal(x.d)), Decimal(y.b), Decimal(y.c) + ("." + Decimal(y.d)));
      CutAtDot(Decimal(x.c), Decimal(x.d), Decimal(y.c), Decimal(y.d));
      DecimalInjective(x.a, y.a);
      DecimalInjective(x.b, y.b);
      DecimalInjective(x.c, y.c);
      DecimalInjective(x.d, y.d);
    }
  }

  // The tunnel addresses of one pool: "10.8.0" and an octet.
  function InPool(base: string, octet: nat): string {
    base + "." + Decimal(octet)
  }

  lemma InPoolInjective(base: string, m: nat, n: nat)
    ensures InPool(base, m) == InPool(base, n) <==> m == n
  {
    assert InPool(base, m)[|base| + 1..] == Decimal(m);
    assert InPool(base, n)[|base| + 1..] == Decimal(n);
    DecimalInjective(m, n);
  }
}
