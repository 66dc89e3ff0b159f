/** Division facts the solver does not find on its own. */
module Arith {

  lemma SmallProduct(e: int, d: int)
    requires d > 0
    ensures e >= 1 ==> e * d >= d
    ensures e <= -1 ==> e * d <= -d
  {
    if e >= 1 {
      assert (e - 1) * d >= 0;
    } else if e <= -1 {
      assert (-1 - e) * d >= 0;
    }
  }

  /** A quotient is determined by its remainder bound. */
  lemma DivUnique(x: int, d: int, q: int, r: int)
    requires d > 0 && x == q * d + r && 0 <= r < d
    ensures x / d == q && x % d == r
  {
    var q2, r2 := x / d, x % d;
    assert x == q2 * d + r2;
    var e := q - q2;
    assert e * d == r2 - r by { assert e * d == q * d - q2 * d; }
    SmallProduct(e, d);
  }

  /** `n * d`, written so that loops counting in steps of `d` stay linear. */
  function Times(n: nat, d: nat): nat {
    if n == 0 then 0 else Times(n - 1, d) + d
  }

  lemma {:induction false} TimesIsProduct(n: nat, d: nat)
    ensures Times(n, d) == n * d
  {
    if n > 0 {
      TimesIsProduct(n - 1, d);
      assert (n - 1) * d + d == n * d;
    }
  }

  lemma ExactDivision(n: nat, d: nat)
    requires d > 0
    ensures Times(n, d) / d == n
  {
    TimesIsProduct(n, d);
    DivUnique(n * d, d, n, 0);
  }

  function CeilDiv(a: nat, b: nat): nat
    requires b > 0
  {
    (a + b - 1) / b
  }
}
