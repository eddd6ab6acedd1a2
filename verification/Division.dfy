/** Facts about natural division that the solver does not find by itself. */
module Division {

  lemma {:induction false} MulLess(d: nat, x: nat, y: nat)
    requires d * x < d * y
    ensures x < y
  {
    if 0 < x && 0 < y {
      assert d * (x - 1) == d * x - d && d * (y - 1) == d * y - d;
      MulLess(d, x - 1, y - 1);
    }
  }

  lemma DivUnique(x: nat, d: nat, q: nat, r: nat)
    requires x == d * q + r && r < d
    ensures x / d == q && x % d == r
  {
    var p := x / d;
    assert d * p <= x < d * p + d == d * (p + 1);
    assert x < d * q + d == d * (q + 1);
    MulLess(d, q, p + 1);
    MulLess(d, p, q + 1);
  }

  lemma MulMono(a: nat, x: nat, y: nat)
    requires x <= y
    ensures a * x <= a * y
  {
    assert a * y == a * x + a * (y - x);
  }

  lemma Recompose(a: nat, b: nat, q: nat, r: nat)
    ensures a * (b * q + r) == b * a * q + a * r
  {
    assert a * (b * q + r) == a * (b * q) + a * r;
    assert a * (b * q) == b * a * q;
  }

  lemma RestFits(a: nat, b: nat, r: nat, rest: nat)
    requires r < b && rest < a
    ensures a * r + rest < b * a
  {
    MulMono(a, r + 1, b);
    assert a * (r + 1) == a * r + a && a * b == b * a;
  }

  lemma DivProduct(x: nat, a: nat, b: nat, q: nat, r: nat, rest: nat)
    requires x == a * (b * q + r) + rest && r < b && rest < a
    ensures b * a > 0 && x / (b * a) == q
  {
    RestFits(a, b, r, rest);
    assert x == b * a * q + (a * r + rest) by { Recompose(a, b, q, r); }
    DivUnique(x, b * a, q, a * r + rest);
  }

  /** Dividing twice is dividing by the product. */
  lemma DivTwice(x: nat, a: nat, b: nat)
    requires a > 0 && b > 0
    ensures b * a > 0 && x / a / b == x / (b * a)
  {
    var y := x / a;
    assert x == a * y + x % a && y == b * (y / b) + y % b;
    DivProduct(x, a, b, y / b, y % b, x % a);
  }

  lemma DivAtLeast(x: nat, d: nat, k: nat)
    requires d > 0
    ensures x / d >= k <==> k * d <= x
  {
    var q := x / d;
    assert q * d <= x < (q + 1) * d;
    if k <= q { MulMono(d, k, q); } else { MulMono(d, q + 1, k); }
  }
}
