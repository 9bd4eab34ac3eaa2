/** The few facts about products and quotients that the solver should not have to search for. */
module Arith {

  lemma {:induction false} AtLeastOnce(x: nat, c: nat)
    requires x >= 1
    ensures x * c >= c
  {
    if x > 1 {
      AtLeastOnce(x - 1, c);
      assert x * c == (x - 1) * c + c;
    }
  }

  lemma StrictlyMonotone(a: nat, b: nat, c: nat)
    requires c > 0
    ensures a < b ==> a * c + c <= b * c
  {
    if a < b {
      AtLeastOnce(b - a, c);
      assert b * c == a * c + (b - a) * c;
    }
  }

  lemma Cancel(a: nat, b: nat, c: nat)
    requires c > 0 && a * c == b * c
    ensures a == b
  {
    StrictlyMonotone(a, b, c);
    StrictlyMonotone(b, a, c);
  }

  lemma Associate(a: nat, b: nat, c: nat)
    ensures (a * b) * c == a * (b * c) == (a * c) * b
  {
  }

  lemma NegativeProduct(b: nat, q: int)
    ensures q < 0 ==> b * q <= 0 - b
  {
    if q < 0 {
      AtLeastOnce(-q, b);
      assert b * q == -((-q) * b);
    }
  }

  lemma QuotNonNegative(a: nat, b: nat)
    requires b > 0
    ensures a / b >= 0
  {
    NegativeProduct(b, a / b);
    assert a == b * (a / b) + a % b;
  }

  function Quot(a: nat, b: nat): nat
    requires b > 0
  {
    QuotNonNegative(a, b);
    a / b
  }

  function Rem(a: nat, b: nat): (r: nat)
    requires b > 0
    ensures r < b
  {
    a % b
  }

  lemma QuotRem(a: nat, b: nat)
    requires b > 0
    ensures Quot(a, b) * b + Rem(a, b) == a
  {
  }

  lemma QuotRemUnique(q: nat, r: nat, b: nat)
    requires r < b
    ensures Quot(q * b + r, b) == q && Rem(q * b + r, b) == r
  {
    var n := q * b + r;
    QuotRem(n, b);
    StrictlyMonotone(q, Quot(n, b), b);
    StrictlyMonotone(Quot(n, b), q, b);
  }

  lemma Distribute(a: nat, b: nat, c: nat, d: nat)
    ensures (a * b + c) * d == a * (b * d) + c * d
  {
    assert (a * b) * d == a * (b * d);
  }
}
