/** Facts about products and quotients, one at a time: the verifier is given no
    nonlinear goal larger than these. */
module Arithmetic {
  lemma MulMono(a: int, b: int, c: int)
    requires a <= b && c >= 0
    ensures a * c <= b * c
  {
    var d := b - a;
    assert d * c >= 0;
    assert b * c == (a + d) * c == a * c + d * c;
  }

  lemma Swap(a: int, b: int, c: int)
    ensures (a * b) * c == (a * c) * b
  {
  }

  lemma Distribute(a: int, b: int, c: int)
    ensures (a + b) * c == a * c + b * c
  {
  }

  lemma PositiveFactor(k: int, q: int)
    requires q > 0 && k * q > 0
    ensures k > 0
  {
    if k <= 0 { MulMono(k, 0, q); }
  }

  lemma DivExact(g: int, q: int)
    requires g > 0
    ensures (q * g) / g == q
  {
    var d := (q * g) / g;
    var m := (q * g) % g;
    assert q * g == d * g + m by { assert g * d == d * g; }
    assert (q - d) * g == m by { assert (q - d) * g == q * g - d * g; }
    if q > d { MulMono(1, q - d, g); }
    if q < d { MulMono(q - d, -1, g); }
  }

  lemma Cancel(a: int, b: int, c: int)
    requires c != 0 && a * c == b * c
    ensures a == b
  {
    assert (a - b) * c == 0;
  }

  lemma Quotient(a: int, c: int, q: int, r: int)
    requires c > 0 && a == q * c + r && 0 <= r < c
    ensures a / c == q
  {
    var d, m := a / c, a % c;
    assert a == d * c + m by { assert c * d == d * c; }
    assert (q - d) * c == m - r by { Distribute(q, -d, c); }
    if q > d { MulMono(1, q - d, c); }
    if q < d { MulMono(q - d, -1, c); }
  }

  lemma DivideOnce(a: int, c: int)
    requires a >= c > 0
    ensures a / c == (a - c) / c + 1
  {
    var q, r := (a - c) / c, (a - c) % c;
    assert a - c == q * c + r by { assert c * q == q * c; }
    Distribute(q, 1, c);
    Quotient(a, c, q + 1, r);
  }

  lemma QuotientOne(a: int, c: int)
    requires c <= a < 2 * c
    ensures a / c == 1
  {
    Quotient(a, c, 1, a - c);
  }

  lemma QuotientBounds(t: int, c: int)
    requires c >= 1
    ensures (t / c) * c <= t < (t / c) * c + c
  {
    var q := t / c;
    assert t == c * q + t % c;
    assert c * q == q * c;
  }

  lemma SmallerFactor(a: int, b: int, c: int)
    requires c >= 1 && a * c < b * c
    ensures a < b
  {
    if b <= a { MulMono(b, a, c); }
  }
}
