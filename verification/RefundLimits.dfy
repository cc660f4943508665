/** How many refunds a recharge order admits (RefundRecharge in
    v3/internal/platform/commerce.go): the proportionate pairs are the multiples of one
    smallest pair, and an order is made of gcd(grant, price) of them. */
module RefundLimits {
  import opened Arithmetic
  import opened Refunds

  function Gcd(a: nat, b: nat): nat
    decreases b
  {
    if b == 0 then a else Gcd(b, a % b)
  }

  /** Bezout coefficients, and the cofactors of the two arguments. */
  lemma {:induction false} GcdWitness(a: nat, b: nat) returns (p: int, q: int, x: int, y: int)
    requires a > 0
    ensures Gcd(a, b) > 0
    ensures a == Gcd(a, b) * p && b == Gcd(a, b) * q && Gcd(a, b) == a * x + b * y
    decreases b
  {
    if b == 0 {
      p, q, x, y := 1, 0, 1, 0;
    } else {
      var p', q', x', y' := GcdWitness(b, a % b);
      var d := a / b;
      EuclidStep(Gcd(a, b), a, b, d, a % b, p', q', x', y');
      p, q, x, y := p' * d + q', p', y', x' - d * y';
    }
  }

  lemma EuclidStep(g: int, a: int, b: int, d: int, r: int, p: int, q: int, x: int, y: int)
    requires a == b * d + r && b == g * p && r == g * q && g == b * x + r * y
    ensures a == g * (p * d + q) && g == a * y + b * (x - d * y)
  {
    Swap(g, p, d);
    Distribute(p * d, q, g);
    Distribute(b * d, r, y);
    Swap(b, d, y);
    Distribute(x, -(d * y), b);
    calc {
      a;
      (g * p) * d + g * q;
      { Swap(g, p, d); assert (g * d) * p == g * (p * d); }
      g * (p * d) + g * q;
    }
    calc {
      a * y + b * (x - d * y);
      (b * d) * y + r * y + b * x - b * (d * y);
      { assert (b * d) * y == b * (d * y); }
      g;
    }
  }

  /** Gcd is the greatest common divisor. */
  lemma GcdIsGreatest(a: nat, b: nat, d: nat, u: nat, v: nat)
    requires a > 0 && a == u * d && b == v * d
    ensures d <= Gcd(a, b)
  {
    var p, q, x, y := GcdWitness(a, b);
    var k := u * x + v * y;
    Swap(u, d, x);
    Swap(v, d, y);
    Distribute(u * x, v * y, d);
    MultipleBound(Gcd(a, b), k, d);
  }

  lemma MultipleBound(g: int, k: int, d: nat)
    requires g > 0 && g == k * d
    ensures d <= g
  {
    if d > 0 {
      PositiveFactor(k, d);
      MulMono(1, k, d);
    }
  }

  /** The gcd(grant, price)-th part of a total. */
  function Share(total: int, grant: nat, price: nat): int
    requires grant > 0
  {
    GcdPositive(grant, price);
    total / Gcd(grant, price)
  }

  lemma GcdPositive(a: nat, b: nat)
    requires a > 0
    ensures Gcd(a, b) > 0
  {
    var p, q, x, y := GcdWitness(a, b);
  }

  /** The two shares are whole, positive and have no common factor left. */
  lemma ShareWitness(grant: nat, price: nat) returns (x: int, y: int)
    requires grant > 0 && price > 0
    ensures var g, q, p := Gcd(grant, price), Share(grant, grant, price), Share(price, grant, price);
            && g > 0 && q > 0 && p > 0
            && grant == q * g && price == p * g && q * x + p * y == 1
  {
    var q, p, x', y' := GcdWitness(grant, price);
    x, y := x', y';
    var g := Gcd(grant, price);
    assert grant == q * g && price == p * g;
    DivExact(g, q);
    DivExact(g, p);
    PositiveFactor(q, g);
    PositiveFactor(p, g);
    assert (q * x + p * y) * g == 1 * g by {
      assert q * x * g == (q * g) * x && p * y * g == (p * g) * y;
    }
    Cancel(q * x + p * y, 1, g);
  }

  predicate IsMultiple(k: int, w: int, e: int, grant: nat, price: nat)
    requires grant > 0
  {
    k > 0 && w == k * Share(grant, grant, price) && e == k * Share(price, grant, price)
  }

  /** A pair with the order's ratio is a whole number of shares on both sides. */
  lemma ProportionalIsMultiple(grant: nat, price: nat, w: int, e: int) returns (k: int)
    requires grant > 0 && price > 0 && w > 0 && e > 0
    requires w * price == e * grant
    ensures IsMultiple(k, w, e, grant, price)
  {
    var x, y := ShareWitness(grant, price);
    var g, q, p := Gcd(grant, price), Share(grant, grant, price), Share(price, grant, price);
    SmallestRatio(w, e, g, q, p);
    k := w * x + e * y;
    CombineShares(w, e, q, p, x, y);
    PositiveFactor(k, q);
  }

  lemma SmallestRatio(w: int, e: int, g: int, q: int, p: int)
    requires g > 0 && w * (p * g) == e * (q * g)
    ensures w * p == e * q
  {
    assert w * (p * g) == (w * p) * g && e * (q * g) == (e * q) * g;
    Cancel(w * p, e * q, g);
  }

  lemma CombineShares(w: int, e: int, q: int, p: int, x: int, y: int)
    requires q != 0 && w * p == e * q && q * x + p * y == 1
    ensures w == (w * x + e * y) * q && e == (w * x + e * y) * p
  {
    var k := w * x + e * y;
    calc {
      k * q;
      { Distribute(w * x, e * y, q); Swap(w, x, q); Swap(e, y, q); }
      (w * q) * x + (e * q) * y;
      (w * q) * x + (w * p) * y;
      { assert (w * q) * x == w * (q * x) && (w * p) * y == w * (p * y); }
      w * (q * x) + w * (p * y);
      { Distribute(q * x, p * y, w); }
      w;
    }
    calc {
      (k * p) * q;
      { Swap(k, p, q); }
      (k * q) * p;
      w * p;
      e * q;
    }
    Cancel(e, k * p, q);
  }

  lemma MultipleIsProportional(grant: nat, price: nat, w: int, e: int, k: int)
    requires grant > 0 && price > 0 && IsMultiple(k, w, e, grant, price)
    ensures w > 0 && e > 0 && w * price == e * grant
  {
    var x, y := ShareWitness(grant, price);
    var g, q, p := Gcd(grant, price), Share(grant, grant, price), Share(price, grant, price);
    MulMono(1, k, q);
    MulMono(1, k, p);
    assert (k * q) * (p * g) == (k * p) * (q * g);
  }

  /** The cross-multiplication test passes exactly for whole multiples of one share. */
  lemma ProportionalPairs(grant: nat, price: nat, w: int, e: int)
    requires grant > 0 && price > 0 && w > 0 && e > 0
    ensures w * price == e * grant <==> exists k :: IsMultiple(k, w, e, grant, price)
  {
    if w * price == e * grant {
      var k := ProportionalIsMultiple(grant, price, w, e);
    }
    if k :| IsMultiple(k, w, e, grant, price) {
      MultipleIsProportional(grant, price, w, e, k);
    }
  }

  /** Each refund takes at least one of the gcd(grant, price) shares. */
  lemma {:induction false} RefundsTakeShares(grant: nat, price: nat, rs: seq<Refund>)
    requires grant > 0 && price > 0 && Accepted(grant, price, rs)
    ensures |rs| * Share(grant, grant, price) <= WalletSum(rs)
  {
    if rs != [] {
      var used, r := rs[..|rs| - 1], rs[|rs| - 1];
      var q := Share(grant, grant, price);
      RefundsTakeShares(grant, price, used);
      var k := ProportionalIsMultiple(grant, price, r.wallet, r.external);
      var x, y := ShareWitness(grant, price);
      MulMono(1, k, q);
      assert |rs| * q == |used| * q + q;
    }
  }

  lemma AtMostGcdRefunds(grant: nat, price: nat, rs: seq<Refund>)
    requires grant > 0 && price > 0 && Accepted(grant, price, rs)
    ensures |rs| <= Gcd(grant, price)
  {
    var g, q := Gcd(grant, price), Share(grant, grant, price);
    RefundsTakeShares(grant, price, rs);
    TotalsStayProportional(grant, price, rs);
    var x, y := ShareWitness(grant, price);
    CountBound(|rs|, g, q);
  }

  lemma CountBound(n: nat, g: nat, q: int)
    requires q > 0 && n * q <= q * g
    ensures n <= g
  {
    if n > g {
      MulMono(g + 1, n, q);
      Distribute(g, 1, q);
    }
  }

  function Copies(r: Refund, n: nat): (rs: seq<Refund>)
    ensures |rs| == n
  {
    if n == 0 then [] else Copies(r, n - 1) + [r]
  }

  /** The bound is reached: refunds of one share each are accepted up to the gcd. */
  lemma GcdRefundsPossible(grant: nat, price: nat, n: nat)
    requires grant > 0 && price > 0 && n <= Gcd(grant, price)
    ensures var share := Refund(Share(grant, grant, price), Share(price, grant, price));
            Accepted(grant, price, Copies(share, n))
  {
    var x, y := ShareWitness(grant, price);
    var q, p := Share(grant, grant, price), Share(price, grant, price);
    MultipleIsProportional(grant, price, q, p, 1);
    CopiesAccepted(grant, price, Refund(q, p), Gcd(grant, price), n);
  }

  lemma {:induction false} CopiesAccepted(grant: int, price: int, r: Refund, g: nat, n: nat)
    requires r.wallet > 0 && r.external > 0 && r.wallet * price == r.external * grant
    requires grant == r.wallet * g && price == r.external * g && n <= g
    ensures Accepted(grant, price, Copies(r, n))
    ensures WalletSum(Copies(r, n)) == n * r.wallet && ExternalSum(Copies(r, n)) == n * r.external
  {
    if n > 0 {
      CopiesAccepted(grant, price, r, g, n - 1);
      var used := Copies(r, n - 1);
      SumsOfAppend(used, r);
      OneMoreCopy(n, g, r.wallet);
      OneMoreCopy(n, g, r.external);
      assert Accepts(grant, price, used, r);
      AcceptedAppend(grant, price, used, r);
    }
  }

  lemma OneMoreCopy(n: int, g: int, w: int)
    requires 0 < n <= g && w > 0
    ensures (n - 1) * w + w == n * w <= w * g
  {
    Distribute(n - 1, 1, w);
    MulMono(n, g, w);
  }
}
