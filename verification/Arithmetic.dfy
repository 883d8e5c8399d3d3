/** Products, quotients and remainders of naturals. */
module Arithmetic {
  lemma MulNatural(a: nat, b: nat)
    ensures a * b >= 0
  {
  }

  lemma MulApart(e: int, d: nat)
    ensures e >= 1 ==> e * d >= d
    ensures e <= -1 ==> e * d + d <= 0
  {
    if e >= 1 {
      assert (e - 1) * d >= 0;
    } else if e <= -1 {
      assert (-e - 1) * d >= 0;
    }
  }

  lemma DivModUnique(q: nat, d: nat, r: nat)
    requires r < d
    ensures (q * d + r) / d == q && (q * d + r) % d == r
  {
    var n := q * d + r;
    var e := n / d - q;
    assert n == d * (n / d) + n % d;
    assert e * d == r - n % d;
    MulApart(e, d);
  }

  lemma MulMonotone(a: nat, b: nat, d: nat)
    requires a < b
    ensures a * d + d <= b * d
  {
    var e := b - a - 1;
    assert e * d >= 0;
    assert b * d == (a + 1 + e) * d == a * d + d + e * d;
  }
}
