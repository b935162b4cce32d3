/** Regrouping and scaling of products of reals. */
module RealArithmetic {

  lemma Swap(x: real, p: real, f: real)
    ensures (x * p) * f == (x * f) * p
  {
  }

  lemma Associate(x: real, p: real, q: real)
    ensures (x * p) * q == x * (p * q) == x * (q * p)
  {
  }

  lemma Regroup(x: real, p: real, q: real, f: real)
    ensures (x * p) * q * f == (x * f) * (p * q)
  {
    Swap(x * p, q, f);
    Swap(x, p, f);
    Associate(x * f, p, q);
  }

  lemma Distribute(x: real, y: real, factor: real)
    ensures (x + y) * factor == x * factor + y * factor
  {
  }

  lemma PositiveProduct(x: real, y: real)
    requires x > 0.0 && y > 0.0
    ensures x * y == y * x && x * y > 0.0
  {
  }

  lemma PositiveFactor(x: real, y: real)
    requires x * y > 0.0 && y > 0.0
    ensures x > 0.0
  {
  }

  lemma ScaleUp(x: real, y: real, scale: real)
    requires scale > 0.0
    ensures x > y ==> x * scale > y * scale
  {
  }

  /** Scaled by a positive factor, numbers compare as they did. */
  lemma SameOrder(a: real, b: real, h: real, k: real, scale: real)
    requires scale > 0.0 && h == a * scale && k == b * scale
    ensures a >= b <==> h >= k
    ensures a == b <==> h == k
  {
    ScaleUp(a, b, scale);
    ScaleUp(b, a, scale);
  }

  /** `x` is `h` in units of `p`, and `y` is `k` in units of `q`. */
  lemma CrossMultiply(x: real, p: real, h: real, f: real, y: real, q: real, k: real, g: real)
    requires p > 0.0 && q > 0.0 && h == x * p && k == y * q
    ensures x * f == y * g <==> h * q * f == k * p * g
  {
    Regroup(x, p, q, f);
    Regroup(y, q, p, g);
    PositiveProduct(p, q);
    SameOrder(x * f, y * g, h * q * f, k * p * g, p * q);
  }

  lemma ScaleLimit(x: real, p: real, h: real, f: real, limit: real)
    requires p > 0.0 && h == x * p
    ensures x * f >= limit <==> h * f >= limit * p
  {
    Swap(x, p, f);
    SameOrder(x * f, limit, h * f, limit * p, p);
  }

  lemma DivideBack(price: real, total: real, usd: real)
    requires total > 0.0 && price * total == usd
    ensures usd / total == price
  {
  }
}
