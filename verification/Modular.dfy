/** Remainders. */
module Modular {

  lemma DivModUnique(x: nat, d: nat, q: nat, r: nat)
    requires d > 0 && x == d * q + r && r < d
    ensures x / d == q && x % d == r
  {
    SmallMultiple(d, x / d - q, r - x % d);
  }

  lemma SmallMultiple(d: int, e: int, z: int)
    requires d > 0 && z == d * e && -d < z < d
    ensures e == 0
  {
    assert e >= 1 ==> d * (e - 1) >= 0;
    assert e <= -1 ==> d * (-e - 1) >= 0;
  }

  /** Remainders do not repeat within a period, and repeat after one. */
  lemma NoRepeat(a: nat, b: nat, d: nat)
    requires d > 0 && a < b < a + d
    ensures b % d != a % d && (a + d) % d == a % d
  {
    var q, r := a / d, a % d;
    assert a == d * q + r;
    DivModUnique(a + d, d, q + 1, r);
    if r + (b - a) < d {
      DivModUnique(b, d, q, r + (b - a));
    } else {
      assert b == d * (q + 1) + (r + (b - a) - d);
      DivModUnique(b, d, q + 1, r + (b - a) - d);
    }
  }

  lemma Period(x: nat, d: nat)
    requires d > 0
    ensures (x + d) % d == x % d
  {
    DivModUnique(x + d, d, x / d + 1, x % d);
  }

  /** `n` further on is one block further on. */
  lemma NextBlock(a: nat, n: nat)
    requires n > 0
    ensures (a + n) / n == a / n + 1
  {
    DivModUnique(a + n, n, a / n + 1, a % n);
  }
}
